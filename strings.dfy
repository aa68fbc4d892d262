/**
 * Text primitives the views rely on: the case-insensitive matching that the
 * database's `icontains` / `istartswith` lookups perform (ASCII folding only),
 * Python's `str.split(sep)`, `sep.join(...)`, `str.strip(c)`, `str.strip()`,
 * `int(...)` on decimal text, `str.isdigit`, and the ordering of text columns.
 */
module Strings {
  import opened Wrappers

  // ---------------------------------------------------------------------------
  // Case folding and matching

  /** ASCII lower-casing of one character; everything outside 'A'..'Z' is kept. */
  function LowerChar(c: char): char {
    if 'A' <= c <= 'Z' then (c as int + 32) as char else c
  }

  function Lower(s: string): (r: string)
    ensures |r| == |s|
    ensures forall i :: 0 <= i < |s| ==> r[i] == LowerChar(s[i])
  {
    if s == [] then [] else [LowerChar(s[0])] + Lower(s[1..])
  }

  predicate IsPrefix(p: string, s: string) {
    |p| <= |s| && s[..|p|] == p
  }

  /** `p` occurs somewhere inside `s` (the empty text occurs everywhere). */
  predicate IsInfix(p: string, s: string) {
    IsPrefix(p, s) || (s != [] && IsInfix(p, s[1..]))
  }

  /** The `istartswith` lookup: `s` begins with `p`, ignoring ASCII case. */
  predicate IStartsWith(s: string, p: string) {
    IsPrefix(Lower(p), Lower(s))
  }

  /** The `icontains` lookup: `p` occurs in `s`, ignoring ASCII case. */
  predicate IContains(s: string, p: string) {
    IsInfix(Lower(p), Lower(s))
  }

  /** An infix is a prefix of some suffix: the index form of `IsInfix`. */
  lemma {:induction false} InfixAt(p: string, s: string)
    ensures IsInfix(p, s) <==> exists i :: 0 <= i <= |s| && IsPrefix(p, s[i..])
  {
    if IsInfix(p, s) {
      if !IsPrefix(p, s) {
        InfixAt(p, s[1..]);
        var i :| 0 <= i <= |s[1..]| && IsPrefix(p, s[1..][i..]);
        assert s[1..][i..] == s[i + 1..];
      } else {
        assert s[0..] == s;
      }
    }
    if exists i :: 0 <= i <= |s| && IsPrefix(p, s[i..]) {
      var i :| 0 <= i <= |s| && IsPrefix(p, s[i..]);
      if i == 0 {
        assert s[0..] == s;
      } else {
        assert s[1..][i - 1..] == s[i..];
        InfixAt(p, s[1..]);
      }
    }
  }

  /** A case-insensitive prefix match is also a case-insensitive substring match. */
  lemma StartsWithImpliesContains(s: string, p: string)
    ensures IStartsWith(s, p) ==> IContains(s, p)
  {
  }

  // ---------------------------------------------------------------------------
  // Digits and integers

  predicate IsDigit(c: char) {
    '0' <= c <= '9'
  }

  /** `any(map(str.isdigit, s))`, for ASCII digits. */
  predicate HasDigit(s: string) {
    exists i :: 0 <= i < |s| && IsDigit(s[i])
  }

  predicate AllDigits(s: string) {
    forall i :: 0 <= i < |s| ==> IsDigit(s[i])
  }

  /** The value of a run of decimal digits, most significant first. */
  function DigitsValue(s: string): nat
    requires AllDigits(s)
  {
    if s == [] then 0 else 10 * DigitsValue(s[..|s| - 1]) + (s[|s| - 1] as int - '0' as int)
  }

  /**
   * The characters `str.isspace` accepts, which `int(s)` strips from both
   * ends: the ASCII controls 9-13 and 28-31, the space, and the Unicode
   * separators.
   */
  predicate IsSpace(c: char) {
    var n := c as int;
    9 <= n <= 13 || 28 <= n <= 32 || n == 0x85 || n == 0xA0 || n == 0x1680 ||
    0x2000 <= n <= 0x200A || n == 0x2028 || n == 0x2029 || n == 0x202F || n == 0x205F || n == 0x3000
  }

  function StripSpaceStart(s: string): (r: string)
    ensures r == [] || !IsSpace(r[0])
  {
    if s != [] && IsSpace(s[0]) then StripSpaceStart(s[1..]) else s
  }

  function StripSpaceEnd(s: string): (r: string)
    ensures r == [] || !IsSpace(r[|r| - 1])
  {
    if s != [] && IsSpace(s[|s| - 1]) then StripSpaceEnd(s[..|s| - 1]) else s
  }

  /** Python's `s.strip()`. */
  function StripSpace(s: string): string {
    StripSpaceEnd(StripSpaceStart(s))
  }

  /**
   * The digits of a decimal integer literal: at least one digit, and single
   * underscores allowed between two digits ("1_000").
   */
  predicate Numeral(s: string) {
    |s| >= 1 && forall i :: 0 <= i < |s| ==> NumeralChar(s, i)
  }

  /** Position `i` of `s` holds a digit, or an underscore between two digits. */
  predicate NumeralChar(s: string, i: nat)
    requires i < |s|
  {
    IsDigit(s[i]) || (s[i] == '_' && 0 < i < |s| - 1 && IsDigit(s[i - 1]) && IsDigit(s[i + 1]))
  }

  /** The value of a numeral; underscores carry no value. */
  function NumeralValue(s: string): nat {
    if s == [] then 0
    else if IsDigit(s[|s| - 1]) then 10 * NumeralValue(s[..|s| - 1]) + (s[|s| - 1] as int - '0' as int)
    else NumeralValue(s[..|s| - 1])
  }

  /**
   * Python's `int(s)` on request text (Django's integer lookups call it as
   * well): surrounding whitespace stripped, then an optional sign and a
   * numeral; anything else is the conversion failure (`None`).
   */
  function ParseInt(s: string): Option<int> {
    var t := StripSpace(s);
    if |t| >= 2 && (t[0] == '+' || t[0] == '-') && Numeral(t[1..]) then
      Some(if t[0] == '-' then -(NumeralValue(t[1..]) as int) else NumeralValue(t[1..]))
    else if Numeral(t) then
      Some(NumeralValue(t))
    else
      None
  }

  /** `int` strips surrounding whitespace. */
  lemma ParseIntStripsSpace()
    ensures ParseInt(" 3") == Some(3)
    ensures ParseInt("\t-12\n") == Some(-12)
  {
    var a := " 3";
    assert a[1..] == "3" && StripSpaceStart(a) == "3";
    assert StripSpace(a) == "3";
    assert NumeralValue("3") == 3 by {
      assert "3"[..0] == "";
    }
    var b := "\t-12\n";
    assert b[1..] == "-12\n" && StripSpaceStart(b) == "-12\n";
    assert "-12\n"[..3] == "-12";
    assert StripSpace(b) == "-12";
    assert "-12"[1..] == "12";
    assert NumeralValue("12") == 12 by {
      assert "12"[..1] == "1" && "1"[..0] == "";
    }
  }

  /** `int` accepts single underscores between digits, and nothing more. */
  lemma ParseIntUnderscores()
    ensures ParseInt("1_000") == Some(1000)
    ensures ParseInt("1__0") == None
  {
    var c := "1_000";
    StripSpaceNone(c);
    assert NumeralValue(c) == 1000 by {
      assert c[..4] == "1_00" && "1_00"[..3] == "1_0" && "1_0"[..2] == "1_" && "1_"[..1] == "1";
      assert "1"[..0] == "";
    }
    var d := "1__0";
    StripSpaceNone(d);
    assert !NumeralChar(d, 1);
  }

  /** No whitespace is allowed between the sign and the digits. */
  lemma ParseIntSignThenSpace()
    ensures ParseInt("- 3") == None
  {
    var e := "- 3";
    StripSpaceNone(e);
    var f := e[1..];
    assert f[0] == ' ';
    assert !NumeralChar(f, 0);
    assert !NumeralChar(e, 0);
  }

  /** Decimal rendering of a natural number, as a template writes an id into a link. */
  function ShowNat(n: nat): (r: string)
    ensures |r| >= 1 && AllDigits(r)
  {
    if n < 10 then [(n + '0' as int) as char] else ShowNat(n / 10) + [(n % 10 + '0' as int) as char]
  }

  function ShowInt(n: int): (r: string) {
    if n < 0 then "-" + ShowNat(-n) else ShowNat(n)
  }

  lemma {:induction false} DigitsOfShowNat(n: nat)
    ensures DigitsValue(ShowNat(n)) == n
  {
    var r := ShowNat(n);
    if n >= 10 {
      DigitsOfShowNat(n / 10);
      assert r[..|r| - 1] == ShowNat(n / 10);
    }
  }

  /** A run of digits is a numeral whose value is its digits' value. */
  lemma {:induction false} DigitsNumeral(s: string)
    requires |s| >= 1 && AllDigits(s)
    ensures Numeral(s) && NumeralValue(s) == DigitsValue(s)
  {
    if |s| > 1 {
      DigitsNumeral(s[..|s| - 1]);
    }
  }

  /** Text without whitespace at either end strips to itself. */
  lemma StripSpaceNone(s: string)
    requires s != [] && !IsSpace(s[0]) && !IsSpace(s[|s| - 1])
    ensures StripSpace(s) == s
  {
  }

  /** Reading back the decimal form of an integer gives the integer. */
  lemma ParseShowInt(n: int)
    ensures ParseInt(ShowInt(n)) == Some(n)
  {
    var r := ShowInt(n);
    var m := ShowNat(if n < 0 then -n else n);
    assert IsDigit(m[0]) && IsDigit(m[|m| - 1]);
    DigitsNumeral(m);
    DigitsOfShowNat(if n < 0 then -n else n);
    if n < 0 {
      assert r[1..] == m && r[|r| - 1] == m[|m| - 1];
    } else {
      assert r == m && r[0] != '+' && r[0] != '-';
    }
    StripSpaceNone(r);
  }

  // ---------------------------------------------------------------------------
  // Splitting, joining and stripping

  /** Python's `s.split(sep)`: never empty, keeps the empty pieces. */
  function Split(s: string, sep: char): (r: seq<string>)
    ensures |r| >= 1
  {
    if s == [] then [""]
    else
      var rest := Split(s[1..], sep);
      if s[0] == sep then [""] + rest else [[s[0]] + rest[0]] + rest[1..]
  }

  /** Python's `str(sep).join(ws)`. */
  function Join(ws: seq<string>, sep: char): string {
    if |ws| == 0 then ""
    else if |ws| == 1 then ws[0]
    else ws[0] + [sep] + Join(ws[1..], sep)
  }

  /** Splitting and joining again gives back the text. */
  lemma {:induction false} JoinSplit(s: string, sep: char)
    ensures Join(Split(s, sep), sep) == s
  {
    if s != [] {
      var rest := Split(s[1..], sep);
      JoinSplit(s[1..], sep);
      if s[0] == sep {
        assert Split(s, sep)[1..] == rest;
      } else {
        var r := Split(s, sep);
        if |rest| == 1 {
          assert r == [[s[0]] + rest[0]];
        } else {
          assert r[1..] == rest[1..];
          assert Join(rest, sep) == rest[0] + [sep] + Join(rest[1..], sep);
        }
      }
    }
  }

  /** No piece of a split contains the separator. */
  lemma {:induction false} SplitPiecesFree(s: string, sep: char)
    ensures forall w :: w in Split(s, sep) ==> sep !in w
  {
    if s != [] {
      SplitPiecesFree(s[1..], sep);
    }
  }

  /** Joining pieces that do not contain the separator and splitting again gives the pieces back. */
  lemma {:induction false} SplitJoin(ws: seq<string>, sep: char)
    requires |ws| >= 1
    requires forall w :: w in ws ==> sep !in w
    ensures Split(Join(ws, sep), sep) == ws
  {
    if |ws| == 1 {
      SplitFree(ws[0], sep);
    } else {
      SplitJoin(ws[1..], sep);
      SplitAfter(ws[0], Join(ws[1..], sep), sep);
      assert [ws[0]] + ws[1..] == ws;
    }
  }

  /** Text without the separator splits into itself alone. */
  lemma {:induction false} SplitFree(w: string, sep: char)
    requires sep !in w
    ensures Split(w, sep) == [w]
  {
    if w != [] {
      assert sep !in w[1..] by {
        forall x | x in w[1..] ensures x != sep {
          assert x in w;
        }
      }
      SplitFree(w[1..], sep);
      assert [w[0]] + w[1..] == w;
    }
  }

  /** A separator-free word in front of a separator becomes the first piece. */
  lemma {:induction false} SplitAfter(w: string, rest: string, sep: char)
    requires sep !in w
    ensures Split(w + [sep] + rest, sep) == [w] + Split(rest, sep)
  {
    if w == [] {
      assert w + [sep] + rest == [sep] + rest;
      assert ([sep] + rest)[1..] == rest;
    } else {
      SplitAfter(w[1..], rest, sep);
      assert (w + [sep] + rest)[1..] == w[1..] + [sep] + rest;
      assert [w[0]] + w[1..] == w;
    }
  }

  function TrimStart(s: string, c: char): string {
    if s != [] && s[0] == c then TrimStart(s[1..], c) else s
  }

  function TrimEnd(s: string, c: char): string {
    if s != [] && s[|s| - 1] == c then TrimEnd(s[..|s| - 1], c) else s
  }

  /** Python's `s.strip(c)` for a single character `c`. */
  function Strip(s: string, c: char): string {
    TrimEnd(TrimStart(s, c), c)
  }

  function Repeat(c: char, n: nat): (r: string)
    ensures |r| == n && forall i :: 0 <= i < n ==> r[i] == c
  {
    if n == 0 then [] else [c] + Repeat(c, n - 1)
  }

  lemma {:induction false} TrimStartShape(s: string, c: char)
    ensures var t := TrimStart(s, c);
      (t == [] || t[0] != c) && exists n: nat :: s == Repeat(c, n) + t
  {
    var t := TrimStart(s, c);
    if s != [] && s[0] == c {
      TrimStartShape(s[1..], c);
      var n: nat :| s[1..] == Repeat(c, n) + t;
      assert s == Repeat(c, n + 1) + t;
    } else {
      assert s == Repeat(c, 0) + t;
    }
  }

  lemma {:induction false} TrimEndShape(s: string, c: char)
    ensures var t := TrimEnd(s, c);
      (t == [] || t[|t| - 1] != c) && exists n: nat :: s == t + Repeat(c, n)
  {
    var t := TrimEnd(s, c);
    if s != [] && s[|s| - 1] == c {
      var init := s[..|s| - 1];
      TrimEndShape(init, c);
      var n: nat :| init == t + Repeat(c, n);
      assert Repeat(c, n + 1) == Repeat(c, n) + [c];
      assert s == init + [c];
      assert s == t + Repeat(c, n + 1);
    } else {
      assert s == t + Repeat(c, 0);
    }
  }

  /** Stripping removes exactly the runs of `c` at both ends and nothing else. */
  lemma StripShape(s: string, c: char)
    ensures var t := Strip(s, c);
      (t == [] || (t[0] != c && t[|t| - 1] != c)) &&
      exists a: nat, b: nat :: s == Repeat(c, a) + t + Repeat(c, b)
  {
    var u := TrimStart(s, c);
    var t := Strip(s, c);
    TrimStartShape(s, c);
    TrimEndShape(u, c);
    var a: nat :| s == Repeat(c, a) + u;
    var b: nat :| u == t + Repeat(c, b);
    assert s == Repeat(c, a) + t + Repeat(c, b);
    if t != [] {
      assert u[0] == t[0];
    }
  }

  // ---------------------------------------------------------------------------
  // Ordering of text columns

  /** Lexicographic order on text by code point: a proper prefix comes first. */
  predicate StrLess(a: string, b: string) {
    if a == [] then b != []
    else b != [] && (a[0] < b[0] || (a[0] == b[0] && StrLess(a[1..], b[1..])))
  }

  lemma {:induction false} StrLessIrreflexive(a: string)
    ensures !StrLess(a, a)
  {
    if a != [] {
      StrLessIrreflexive(a[1..]);
    }
  }

  lemma {:induction false} StrLessTransitive(a: string, b: string, c: string)
    requires StrLess(a, b) && StrLess(b, c)
    ensures StrLess(a, c)
  {
    if a != [] && a[0] == b[0] && b[0] == c[0] {
      StrLessTransitive(a[1..], b[1..], c[1..]);
    }
  }

  /** Any two different texts are ordered one way or the other. */
  lemma {:induction false} StrLessTotal(a: string, b: string)
    ensures a == b || StrLess(a, b) || StrLess(b, a)
  {
    if a != [] && b != [] && a[0] == b[0] {
      StrLessTotal(a[1..], b[1..]);
      if a[1..] == b[1..] {
        assert a == [a[0]] + a[1..] && b == [b[0]] + b[1..];
      }
    }
  }

  lemma StrLessAsymmetric(a: string, b: string)
    ensures !(StrLess(a, b) && StrLess(b, a))
  {
    if StrLess(a, b) && StrLess(b, a) {
      StrLessTransitive(a, b, a);
      StrLessIrreflexive(a);
    }
  }
}
