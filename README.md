# CantusDB chant views, modelled in Dafny

CantusDB is a Django database of Latin liturgical chants, kept per manuscript
("source"). This project models the chant views (`main_app/views/chant.py`)
and the city label of the institution admin (`main_app/admin/institution.py`).
It covers:

- **The two searches.** `ChantSearchView` searches everything; it has a
  search bar and a search form. `ChantSearchMSView` searches one source.
  The model covers which rows each returns, the errors a malformed id
  raises, and the `order_by` each passes to the database.
- **The "search parameters" link.** Both views build it so that a column
  heading can re-run the search with a new order.
- **The grouping helpers.** The feast selector options, chants grouped by
  feast, and chants grouped by folio and sorted by `c_sequence`.
- **Chant creation.** The initial form values, the feasts suggested after
  the latest chant's feast, the incipit computed from the standard-spelling
  text, and the duplicate (folio, `c_sequence`) check before saving.
- **The source edit page.** Which chants it lists, the previous and next
  folio, and which proofreading fields survive an edit by a user who may not
  proofread.
- **The institution admin.** The "City" column.

Database rows are values of `Records.Chant`. A query set is a sequence of
rows in the order the database returns them. A nullable column is an
`Option`, and Python truthiness of a text column is `Records.Truthy`: present
and not empty. Django's `filter(x=None)` matches NULL, as it does in Django.
PostgreSQL sorts NULL last, and the models sort it last too. Text is compared
by code point (`Strings.StrLess`).

The files:

| file | module | content |
|---|---|---|
| wrappers.dfy | `Wrappers` | `Option`, `Result` |
| strings.dfy | `Strings` | ASCII case folding, `split`/`join`, `strip`, integer parsing, code-point order |
| seqs.dfy | `Seqs` | filtering, first-seen de-duplication, counting, a stable sort by key |
| records.dfy | `Records` | the chant row |
| search.dfy | `ChantSearch` | both `get_queryset` methods |
| ordering.dfy | `SearchOrdering` | the `order`/`sort` parameters and `order_by(order, "id")` |
| links.dfy | `SearchLinks` | `url_with_search_params` of both views, and a query-string reader |
| grouping.dfy | `Grouping` | `get_feast_selector_options`, `get_chants_with_feasts`, `get_chants_with_folios` |
| create.dfy | `ChantCreate` | `ChantCreateView`: initial values, suggested feasts, incipit, `form_valid` |
| edit.dfy | `SourceEdit` | `SourceEditChantsView`: selection, folio navigation, proofreading on save; the detail view's folio navigation |
| institution.dfy | `InstitutionAdmin` | `get_city_region` |

## Model

| member | source | states |
|---|---|---|
| ChantSearch.IdQuery | django/cantusdb_project/main_app/views/chant.py:448-458 | An id is malformed exactly when Python's `int` refuses it (`Strings.ParseInt`: whitespace at either end is stripped, then an optional sign and digits with single underscores between them). A malformed `genre` id is reported at once, the way `int(genre)` raises. A malformed `service` id is reported separately. Otherwise the Q object demands exactly the given service, genre, Cantus ID and mode fields. |
| ChantSearch.FormQuery | django/cantusdb_project/main_app/views/chant.py:448-469 | The form's Q object demands exactly the given fields: position (global view only), melodies and feast on top of the id lookups. In the global view "melodies=true" requires a melody and "false" adds nothing. In the per-source view "false" requires no melody. |
| ChantSearch.TextFilter | django/cantusdb_project/main_app/views/chant.py:733-758 | The keyword filter (OR over the three text columns, `icontains` for op "contains", `istartswith` otherwise) and the indexing-notes filter hold for exactly the rows the field accepts. A field that is not given filters nothing. |
| ChantSearch.SourceFilters | django/cantusdb_project/main_app/views/chant.py:726-758 | The per-source Q object, then the keyword filter, then the notes filter keep exactly the rows matching the per-source form, in order. |
| ChantSearch.GlobalFilters | django/cantusdb_project/main_app/views/chant.py:400-513 | The visibility filter, the Q object and the keyword (or search-bar) filter together keep exactly the visible rows that match the bar or the form. |
| ChantSearch.SearchBarRows | django/cantusdb_project/main_app/views/chant.py:403-443 | On one table, the search-bar branch keeps exactly the visible rows matching the bar: a Cantus ID substring when the term has a digit, otherwise a prefix of one of the three text columns. |
| ChantSearch.FormRows | django/cantusdb_project/main_app/views/chant.py:444-513 | On one table, the form branch keeps exactly the visible rows matching every given form field, keyword included. |
| ChantSearch.GlobalSearch | django/cantusdb_project/main_app/views/chant.py:393-545 | No parameters give an empty result with no ordering. Without a search-bar term, a malformed genre id fails and then a malformed service id fails. Otherwise the result is the matching chants followed by the matching sequences (union all), unsorted, together with the global `order_by` key; the order that key gives is `SearchOrdering.Precedes` (see the ordering rows). |
| ChantSearch.FindSource | django/cantusdb_project/main_app/views/chant.py:720-721 | `Source.objects.get`: finds the source with that id, or reports that none has it. |
| ChantSearch.FilterSourceRows | django/cantusdb_project/main_app/views/chant.py:726-758 | The per-source filters applied in turn (Q object, keyword, indexing notes) keep exactly the rows matching the per-source form, in order. |
| ChantSearch.SourceSearch | django/cantusdb_project/main_app/views/chant.py:660-763 | No parameters, or "melodies=true" on source 680970, give an empty result. Otherwise the checks run in this order: a malformed genre id, a missing source, a malformed service id. If all pass, the result is the source's sequences (segment 4064) or chants that match the per-source form, unsorted, together with the per-source `order_by` key, whose order is `SearchOrdering.Precedes`. |
| ChantSearch.GlobalResultMembers | django/cantusdb_project/main_app/views/chant.py:471-513 | A row is in the global filtering result iff it is a chant or a sequence that matches. So an anonymous caller sees only published rows. |
| ChantSearch.GlobalMelodiesFalseUnconstrained | django/cantusdb_project/main_app/views/chant.py:463-465 | In the global form "melodies=false" demands nothing: the same rows match as without the parameter. |
| ChantSearch.SourceMelodiesFalseNull | django/cantusdb_project/main_app/views/chant.py:686-690 | In the per-source form "melodies=false" admits only rows without a melody. |
| ChantSearch.SearchBarIgnoresForm | django/cantusdb_project/main_app/views/chant.py:403-443 | With a search-bar term, the form fields make no difference: matching is the bar's Cantus ID search (the term has a digit) or incipit search, plus visibility. |
| SearchOrdering.GlobalOrderByMeaning | django/cantusdb_project/main_app/views/chant.py:516-545 | The global view orders by one of its five verbatim keys, by the column behind one of the three `has_*` keys, or else by the holding institution's siglum. It is descending exactly when `sort` is "desc". |
| SearchOrdering.SourceOrderByMeaning | django/cantusdb_project/main_app/views/chant.py:696-718 | The per-source view orders by one of its seven keys or its three aliases, and otherwise (including a missing `order`) by siglum. It is descending exactly when `sort` is "desc". |
| SearchOrdering.PrecedesTransitive | django/cantusdb_project/main_app/views/chant.py:545 | `order_by(order, "id")` is transitive, with NULL sorting last. |
| SearchOrdering.PrecedesTotal | django/cantusdb_project/main_app/views/chant.py:545 | `order_by(order, "id")` orders any two rows with different ids: the `id` tie-break makes it total. |
| SearchOrdering.DescendingReversesPrimaryOnly | django/cantusdb_project/main_app/views/chant.py:541-545 | "desc" reverses the primary field only; rows equal on it stay in ascending `id` order. |
| SearchOrdering.OrderedListingUnique | django/cantusdb_project/main_app/views/chant.py:545 | Two orderings of the same rows that both follow `order_by(order, "id")` are equal. With OrderedListingExists, rows with distinct ids have exactly one ordered listing. |
| SearchOrdering.OrderedListingExists | django/cantusdb_project/main_app/views/chant.py:545 | Rows with distinct ids (as within one table) have an ordered listing: `SortRows` is a permutation of them that follows `order_by(order, "id")`. |
| SearchOrdering.UnionTieUnordered | django/cantusdb_project/main_app/views/chant.py:513-545 | In the global union, a chant and a sequence with the same id (and so the same primary value) precede each other in neither direction, so no listing of the two is ordered. |
| SearchLinks.AppendGiven | django/cantusdb_project/main_app/views/chant.py:349-351 | One `if value: append(f"{name}={value}")` step extends the pieces by exactly that parameter's piece. |
| SearchLinks.GlobalSearchLink | django/cantusdb_project/main_app/views/chant.py:346-389 | The link is the path, "?", and the given parameters among the ten the global view copies, as `name=value` joined by '&' in that order. |
| SearchLinks.SourceSearchLink | django/cantusdb_project/main_app/views/chant.py:614-657 | The same for the eleven parameters of the per-source view. |
| SearchLinks.LinkRoundTrip | django/cantusdb_project/main_app/views/chant.py:384-387 | If no value holds '&', '%' or '+', reading the link's query string back gives exactly the given parameters, in order. |
| SearchLinks.GlobalLinkRoundTrip | django/cantusdb_project/main_app/views/chant.py:346-389 | The global view's link, with its ten parameter names, reads back as exactly the given parameters in link order when no value holds '&', '%' or '+'. |
| SearchLinks.SourceLinkRoundTrip | django/cantusdb_project/main_app/views/chant.py:614-657 | The same for the per-source view's eleven names. |
| SearchLinks.AmpersandSplitsSearchTerm | django/cantusdb_project/main_app/views/chant.py:380-382 | The search-bar term "a&b" reads back as the term "a" plus a stray parameter "b". |
| SearchLinks.EncodedLinkRoundTrip | django/cantusdb_project/main_app/views/chant.py:384-387 | With percent-encoded values, the link reads back as exactly the given parameters, whatever the values hold. |
| Grouping.FeastSelectorOptions | django/cantusdb_project/main_app/views/chant.py:109-129 | The options are the (folio, feast id, feast name) triples of the rows that have a feast. Each triple appears exactly once. |
| Grouping.FeastSelectorOptionsOrder | django/cantusdb_project/main_app/views/chant.py:121-128 | `dict.fromkeys` keeps the options in the order their triples first occur in the ordered rows. |
| Grouping.FileByFeast | django/cantusdb_project/main_app/views/chant.py:139-146 | The first loop files every chant under its feast id, or under `None`. Each key reads back exactly that feast's chants in input order, and no key maps to an empty list. |
| Grouping.ChantsWithFeasts | django/cantusdb_project/main_app/views/chant.py:132-154 | The two loops return a group per feast that some chant has, in feast-table order, each with that feast's chants. The no-feast group comes last, even when it is empty. |
| Grouping.FeastGroupsPartition | django/cantusdb_project/main_app/views/chant.py:139-153 | With distinct feast ids covering the chants' feasts: group keys are distinct, the no-feast group is last, every chant is in its feast's group, and a group holds exactly the chants of its feast. |
| Grouping.FeastGroupKeepsOrder | django/cantusdb_project/main_app/views/chant.py:140-146 | Each group keeps its chants in input order. |
| Grouping.FileByFolio | django/cantusdb_project/main_app/views/chant.py:164-170 | The first loop files each chant with a non-empty folio under that folio. Keys come in first-seen order, and each key maps to its chants in input order. |
| Grouping.ChantsWithFolios | django/cantusdb_project/main_app/views/chant.py:157-176 | It fails (Python's `TypeError`) exactly when some folio has two or more chants and one lacks a `c_sequence`. Otherwise it returns a (folio, chants sorted by `c_sequence`) pair per folio. |
| Grouping.FolioKeysFirstSeen | django/cantusdb_project/main_app/views/chant.py:164-176 | The folios are distinct, are exactly the non-empty folios of the chants, and come in first-seen order. |
| Grouping.FolioGroupSorted | django/cantusdb_project/main_app/views/chant.py:173-174 | Each folio's group is a permutation of that folio's chants, sorted by `c_sequence`. Chants with equal `c_sequence` keep their input order (Python's sort is stable). |
| Grouping.FolioGroupKeysPresent | django/cantusdb_project/main_app/views/chant.py:169-174 | After a successful grouping, every chant in a group of two or more has a `c_sequence`. |
| Grouping.FolioGroupsCover | django/cantusdb_project/main_app/views/chant.py:164-176 | Only chants without a folio are dropped. Each other chant is in its folio's group, and groups hold only chants of their folio. |
| ChantCreate.InitialValues | django/cantusdb_project/main_app/views/chant.py:791-826 | For an empty source the values are folio "001r", blank feast, no service entry, `c_sequence` 1 and a blank image link. Otherwise the latest chant's non-empty folio is kept (or "001r" when it is missing or empty), `c_sequence` is one more than its own (or 1), the feast and service entries are the latest chant's feast and service ids (blank when it has none; the service entry is always present), and the image link is its non-empty image link (or blank). |
| ChantCreate.InitialFollowsLatest | django/cantusdb_project/main_app/views/chant.py:813-824 | The suggested (folio, `c_sequence`) never equals that of the latest chant when it has a folio. When the latest chant also has the highest `c_sequence` on its folio, no chant of the source holds the suggested (folio, `c_sequence`). |
| ChantCreate.SuggestedFeastsCounts | django/cantusdb_project/main_app/views/chant.py:834-845 | Each suggestion's count is how often its feast follows a chant that ends the current feast, and is positive. Every such following feast is suggested. |
| ChantCreate.SuggestedFeastsDistinct | django/cantusdb_project/main_app/views/chant.py:845-848 | No feast is suggested twice. |
| ChantCreate.SuggestedFeastsRanked | django/cantusdb_project/main_app/views/chant.py:845-848 | The counts add up to the number of next chants that exist and have a feast, and they never increase along the list. |
| ChantCreate.SuggestedFeastsTies | django/cantusdb_project/main_app/views/chant.py:846-848 | Feasts with equal counts stay in first-encounter order (`Counter` order, then a stable reverse sort). |
| ChantCreate.CounterTotal | django/cantusdb_project/main_app/views/chant.py:845 | A `Counter`'s counts add up to the number of values counted. |
| ChantCreate.Incipit | django/cantusdb_project/main_app/views/chant.py:879-888 | The word loop with its `break` computes the incipit specification `IncipitOf`. |
| ChantCreate.IncipitShape | django/cantusdb_project/main_app/views/chant.py:879-888 | The incipit is a stripped prefix of the text (plus a space) that ends at a word boundary, and it is shorter than 30 characters. It is empty if the first word has 29 characters or more. A text shorter than 29 characters is its own incipit, stripped. |
| ChantCreate.TakesWordsUnique | django/cantusdb_project/main_app/views/chant.py:882-886 | The loop's stopping point is unique: exactly one word count stays under 30 while one more word reaches it. |
| ChantCreate.ChantStore.Create | django/cantusdb_project/main_app/views/chant.py:876-913 | A taken (source, folio, `c_sequence`) is refused and the table is unchanged. Otherwise the chant is appended with the source, the computed incipit, and the user as creator and last updater. The table stays free of duplicate keys. |
| ChantCreate.NewKeyKeepsUnique | django/cantusdb_project/main_app/views/chant.py:890-903 | Appending a chant whose key is not taken keeps the keys unique. |
| SourceEdit.FolioListSpec | django/cantusdb_project/main_app/views/chant.py:1078-1082 | `values_list("folio").distinct().order_by("folio")` is strictly increasing (NULL last) and holds exactly the folios of the source's chants. |
| SourceEdit.EditSelection | django/cantusdb_project/main_app/views/chant.py:1003-1033 | It fails only for a source with chants, and it fails with an invalid feast id exactly when a `feast` parameter is given that Python's `int` refuses (`Strings.ParseInt`, as for the search ids). |
| SourceEdit.FeastTakesPrecedence | django/cantusdb_project/main_app/views/chant.py:1018-1019 | A valid feast id lists exactly the source's chants of that feast, whatever the `folio` parameter says. |
| SourceEdit.FolioFilter | django/cantusdb_project/main_app/views/chant.py:1020-1021 | Without a feast, the `folio` parameter lists exactly the chants on that folio. |
| SourceEdit.DefaultIsFirstFolio | django/cantusdb_project/main_app/views/chant.py:1024-1031 | With neither parameter, it lists the chants of the first folio. That list is never empty, and its folio precedes every other folio, so the `Http404` branch cannot be reached. |
| SourceEdit.Neighbours | django/cantusdb_project/main_app/views/chant.py:1103-1111 | The lookup fails (`ValueError`, then `Http404`) exactly when the folio is not in the list. |
| SourceEdit.NeighboursAdjacent | django/cantusdb_project/main_app/views/chant.py:237-242 | In a list without repeats, the previous folio's next folio and the next folio's previous folio are the current folio. |
| SourceEdit.PreviousIsNearest | django/cantusdb_project/main_app/views/chant.py:237-239 | There is no previous folio exactly when no folio of the source precedes the current one. Otherwise the previous folio precedes it with no folio in between. |
| SourceEdit.NextIsNearest | django/cantusdb_project/main_app/views/chant.py:240-242 | There is no next folio exactly when no folio of the source follows the current one. Otherwise the next folio follows it with no folio in between. A next entry that is the NULL folio (`Some(None)`) is, for the view, no next folio: both read as `None` there. |
| SourceEdit.DetailNavigationDefined | django/cantusdb_project/main_app/views/chant.py:232-238 | On the chant detail page, `folio_list.index(chant.folio)` always succeeds. |
| SourceEdit.EditNavigationDefined | django/cantusdb_project/main_app/views/chant.py:1096-1111 | The edit page's navigation fails exactly when the `folio` parameter names no folio of the source. The default first folio has no previous folio. |
| SourceEdit.EditedChant.FormValid | django/cantusdb_project/main_app/views/chant.py:1161-1196 | The saved proofreading fields follow the proofreading rule, and the editing user becomes the last updater. |
| SourceEdit.NonProofreaderCannotProofread | django/cantusdb_project/main_app/views/chant.py:1169-1188 | A user who may not proofread keeps the original range and proofreaders. A flag stays set only if it was already set and its field did not change; a changed field's flag is cleared. |
| SourceEdit.UnchangedEditKeepsOriginal | django/cantusdb_project/main_app/views/chant.py:1169-1180 | When nothing changed, a non-proofreader's save keeps every original proofreading field. |
| Strings.ParseIntStripsSpace | django/cantusdb_project/main_app/views/chant.py:451-452 | `int` strips surrounding whitespace: " 3" is 3, and a tab before and a newline after "-12" leave -12. |
| Strings.ParseIntUnderscores | django/cantusdb_project/main_app/views/chant.py:451-452 | `int` reads "1_000" as 1000 but refuses "1__0". |
| Strings.ParseIntSignThenSpace | django/cantusdb_project/main_app/views/chant.py:451-452 | `int` refuses a space between the sign and the digits. |
| Strings.ParseShowInt | django/cantusdb_project/main_app/views/chant.py:451-452 | Reading back the decimal form of an integer gives the integer. |
| InstitutionAdmin.CityRegion | django/cantusdb_project/main_app/admin/institution.py:69-72 | The label is the city (or "[No city]" when the city is missing or empty), then a space, then "(region)" when the region is non-empty. With no region the label ends in the space. |
| InstitutionAdmin.CityRegionRoundTrip | django/cantusdb_project/main_app/admin/institution.py:69-72 | If the city has no space, reading the label back gives the non-empty city and region exactly. |

## Left out

- The database is not modelled. Query sets are sequences given in database order. The feast table's order (for `Feast.objects.filter(id__in=...)`), `order_by("folio")` before the folio grouping, and `order_by("folio", "c_sequence")` for the feast selector are inputs, not computed.
- Folio order is code-point order (`Strings.StrLess`), not the database collation.
- `icontains`/`istartswith` fold ASCII letters only; other case folding is not modelled.
- Pagination, `select_related`/`only`, templates and the genre and service lists in the context are left out.
- Sequences are rows of the same `Chant` type: they differ from chants only in the table they come from.
- `ChantSearchMSView.get_context_data`: the `PermissionDenied` for an unpublished source and an anonymous user is not modelled; only its link is. So are the `get_object_or_404` and the other context entries.
- ChantSearch.GlobalSearch: a malformed service id is reported as an error value. In Django the `ValueError` is raised when the lookup is built, at `chant_set.filter(q_obj_filter)` (views/chant.py:479 in the global view, 729 in the per-source view), after the genre check at views/chant.py:452. The error order (genre, then service) is the same.
- IdQuery: `int` also accepts non-ASCII decimal digits (Arabic-Indic digits, for example); `Strings.ParseInt` accepts ASCII digits only, so an id written with other digits is reported as malformed where the view would filter by it. Whitespace at either end and underscores between digits are modelled as `int` handles them.
- EditSelection: the same `int` difference applies to the `feast` parameter.
- SearchBarRows: `str.isdigit` is true for every Unicode digit (such as "²"); `Strings.HasDigit` looks for ASCII digits only, so a search-bar term whose only digits are non-ASCII takes the incipit branch in the model and the Cantus ID branch in the view.
- OrderedListingUnique: the global union holds chants and sequences, two tables that number their ids separately, so a chant and a sequence can share an id. When they also share the primary value, `order_by(order, "id")` leaves their relative order to the database (UnionTieUnordered shows the tie): no ordered listing of such rows exists, and OrderedListingUnique holds for them only vacuously. Uniqueness and existence are proved for rows with distinct ids, which covers the per-source view.
- SearchLinks.GlobalSearchLink: `#` fragments, UTF-8 percent decoding and Django's handling of repeated names are not modelled by the reader `ParseQuery`.
- Grouping.ChantsWithFeasts: Feast objects are reduced to their ids.
- ChantCreate.InitialValues: `latest("date_updated")` is a parameter, the latest chant, chosen by the caller.
- ChantCreate.SuggestedFeastsCounts: `next_chant` is looked up by id in the chant table given as input. `Counter` keys are feast ids, not `Feast` objects.
- Suggested chants (`get_suggested_chants`, a call to Cantus Index) and suggested full text (`get_suggested_fulltext`) are foreign calls and are left out.
- ChantCreate.ChantStore.Create: `form.is_valid()` for the form's own fields, the success message and `form_invalid` rendering are left out. A missing standard-spelling text is modelled as an error (`NoStandardText`); the view would raise `AttributeError` on `None.split`. The check-then-insert race between two requests is not modelled.
- `ChantCreateView.test_func`, `ChantDeleteView`, `CISearchView`, `ChantByCantusIDView`, `MelodySearchView` and the syllabification view are outside this model.
- `SourceEditChantsView.get_object` (choosing the chant by `pk` or the latest created) and the context beyond folio navigation are left out. That includes syllabification, `user_can_proofread_chant` and the suggested full text; the permission is a boolean parameter.
- SourceEdit.EditedChant.FormValid: `form.changed_data` is reduced to the three text fields that clear a proofread flag. The other form fields and the ORM save are left out.
- The chant detail page is modelled only for its folio navigation.

## Findings

| source | as written | input that shows it | evidently intended | confidence | as-written member | corrected member |
|---|---|---|---|---|---|---|
| django/cantusdb_project/main_app/views/chant.py:346-389 | `url_with_search_params` inserts each value unencoded as `name=value` | search bar term `a&b`: the link carries `search_bar=a&b`, which reads back as `search_bar=a` and a parameter `b` | the link re-runs the same search with a new order, so each value should be percent-encoded (`urlencode`) | not executed | SearchLinks.AmpersandSplitsSearchTerm | SearchLinks.EncodedLinkRoundTrip |
