/**
 * The "City" column of the institution admin list
 * (`InstitutionAdmin.get_city_region`, admin/institution.py): the city, or a
 * placeholder, then one space, then the region in parentheses when there is
 * one.
 */
module InstitutionAdmin {
  import opened Wrappers
  import opened Strings
  import opened Records

  /** The placeholder for an institution without a city. */
  const NoCity := "[No city]"

  /** Python truthiness of a text column, as a value: empty text counts as absent. */
  function Present(s: Option<string>): Option<string> {
    if Truthy(s) then s else None
  }

  predicate EndsWith(s: string, suffix: string) {
    |suffix| <= |s| && s[|s| - |suffix|..] == suffix
  }

  /** The label for an institution with the given city and region columns. */
  function CityRegion(city: Option<string>, region: Option<string>): (r: string)
    ensures !Truthy(city) ==> IsPrefix(NoCity + " ", r)
    ensures Truthy(city) ==> IsPrefix(city.value + " ", r)
    ensures Truthy(region) ==> EndsWith(r, " (" + region.value + ")")
    ensures !Truthy(region) ==> r[|r| - 1] == ' '
    ensures |r| == (if Truthy(city) then |city.value| else |NoCity|) + 1 + (if Truthy(region) then |region.value| + 2 else 0)
  {
    var c := if Truthy(city) then city.value else NoCity;
    var g := if Truthy(region) then "(" + region.value + ")" else "";
    assert (c + " " + g)[..|c + " "|] == c + " ";
    c + " " + g
  }

  /** A parenthesised text is a region; anything else is none. */
  function RegionOf(rest: string): Option<string> {
    if |rest| >= 2 && rest[0] == '(' && rest[|rest| - 1] == ')' then Some(rest[1..|rest| - 1]) else None
  }

  /**
   * Reads a label back: the placeholder or else the text before the first
   * space is the city, and a parenthesised rest is the region.
   */
  function ParseLabel(text: string): (Option<string>, Option<string>) {
    if IsPrefix(NoCity + " ", text) then (None, RegionOf(text[|NoCity| + 1..]))
    else
      var pieces := Split(text, ' ');
      (Some(pieces[0]), RegionOf(Join(pieces[1..], ' ')))
  }

  /** A label whose city has no space does not start with the placeholder. */
  lemma NotPlaceholder(c: string, g: string)
    requires c != [] && ' ' !in c
    requires g == [] || g[0] == '('
    ensures !IsPrefix(NoCity + " ", c + " " + g)
  {
    var shown := c + " " + g;
    var p := NoCity + " ";
    assert p == ['[', 'N', 'o', ' ', 'c', 'i', 't', 'y', ']', ' '];
    if |c| < 3 {
      assert shown[|c|] != p[|c|];
    } else if |c| == 3 {
      assert |shown| <= 4 || shown[4] != p[4];
    } else {
      assert shown[3] != p[3];
    }
  }

  /**
   * City and region are inserted verbatim: reading the label back gives the
   * non-empty city and region exactly, whenever the city has no space.
   */
  lemma CityRegionRoundTrip(city: Option<string>, region: Option<string>)
    requires Truthy(city) ==> ' ' !in city.value
    ensures ParseLabel(CityRegion(city, region)) == (Present(city), Present(region))
  {
    var g := if Truthy(region) then "(" + region.value + ")" else "";
    if Truthy(region) {
      assert g[1..|g| - 1] == region.value;
    }
    if Truthy(city) {
      var c := city.value;
      NotPlaceholder(c, g);
      SplitAfter(c, g, ' ');
      assert CityRegion(city, region) == c + [' '] + g;
      var pieces := Split(c + [' '] + g, ' ');
      assert pieces[1..] == Split(g, ' ');
      JoinSplit(g, ' ');
    } else {
      var shown := CityRegion(city, region);
      assert shown == NoCity + " " + g;
      assert shown[|NoCity| + 1..] == g;
    }
  }
}
