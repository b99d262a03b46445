/**
 Underscore's HTML escaping (docs/_static/underscore.js): one left-to-right replacement driven
 by a map of strings, and another driven by the inverted map.
 */
module Escape {
  import opened Digits
  import opened Html
  import opened Wrappers

  /** An object with string keys and values, in insertion order. */
  type Table = seq<(string, string)>

  const ESCAPE_MAP: Table := [
    ("&", "&amp;"), ("<", "&lt;"), (">", "&gt;"), ("\"", "&quot;"), ("'", "&#x27;"), ("`", "&#x60;")]

  /** `result[key] = value`. */
  function Put(t: Table, key: string, value: string): Table {
    if t == [] then [(key, value)]
    else if t[0].0 == key then [(key, value)] + t[1..]
    else [t[0]] + Put(t[1..], key, value)
  }

  method Invert(t: Table) returns (result: Table)
    ensures Distinct(t) ==> result == Swapped(t)
  {
    result := [];
    for i := 0 to |t|
      invariant Distinct(t) ==> result == Swapped(t[..i])
    {
      if Distinct(t) { PutNew(Swapped(t[..i]), t[i].1, t[i].0); }
      assert Swapped(t[..i + 1]) == Swapped(t[..i]) + [(t[i].1, t[i].0)];
      result := Put(result, t[i].1, t[i].0);
    }
    assert t[..|t|] == t;
  }

  function Swapped(t: Table): Table {
    seq(|t|, k requires 0 <= k < |t| => (t[k].1, t[k].0))
  }

  predicate Distinct(t: Table) {
    forall j, k :: 0 <= j < k < |t| ==> t[j].1 != t[k].1
  }

  lemma {:induction false} PutNew(t: Table, key: string, value: string)
    requires forall k :: 0 <= k < |t| ==> t[k].0 != key
    ensures Put(t, key, value) == t + [(key, value)]
  {
    if t != [] { PutNew(t[1..], key, value); }
  }

  /** The regular expression: the first alternative that matches at the front. */
  function FirstMatch(t: Table, s: string, from: nat := 0): (k: nat)
    requires from <= |t|
    ensures from <= k <= |t|
    ensures k < |t| ==> t[k].0 <= s
    decreases |t| - from
  {
    if from == |t| || t[from].0 <= s then from else FirstMatch(t, s, from + 1)
  }

  lemma {:induction false} MatchIsFound(t: Table, s: string, k: nat, from: nat)
    requires from <= k < |t| && t[k].0 <= s
    ensures FirstMatch(t, s, from) <= k
    decreases k - from
  {
    if from < k { MatchIsFound(t, s, k, from + 1); }
  }

  predicate Matches(t: Table, s: string) {
    FirstMatch(t, s) < |t|
  }

  ghost predicate NonEmptyKeys(t: Table) {
    forall k :: 0 <= k < |t| ==> t[k].0 != ""
  }

  /** A global replacement: leftmost matches, not overlapping, replacements not looked at again. */
  function Replace(t: Table, s: string): string
    requires NonEmptyKeys(t)
    decreases |s|
  {
    if s == "" then ""
    else if Matches(t, s) then
      var k := FirstMatch(t, s);
      t[k].1 + Replace(t, s[|t[k].0|..])
    else [s[0]] + Replace(t, s[1..])
  }

  predicate Test(t: Table, s: string) {
    exists i :: 0 <= i <= |s| && Matches(t, s[i..])
  }

  /** The function that createEscaper returns. */
  function Escaper(t: Table, s: Option<string>): string
    requires NonEmptyKeys(t)
  {
    var text := match s case None => "" case Some(x) => x;
    if Test(t, text) then Replace(t, text) else text
  }

  lemma {:induction false} ReplaceNothing(t: Table, s: string)
    requires NonEmptyKeys(t) && !Test(t, s)
    ensures Replace(t, s) == s
  {
    if s != "" {
      assert s[0..] == s;
      forall i | 0 <= i <= |s| - 1 ensures !Matches(t, s[1..][i..]) {
        assert s[1..][i..] == s[i + 1..];
      }
      ReplaceNothing(t, s[1..]);
    }
  }

  // ---------------------------------------------------------------- the round trip

  /** The two strings differ where both are defined: neither begins with the other. */
  ghost predicate Apart(a: string, b: string) {
    exists p :: 0 <= p < |a| && p < |b| && a[p] != b[p]
  }

  ghost predicate HasKey(t: Table, key: string) {
    exists j :: 0 <= j < |t| && t[j].0 == key
  }

  /** What makes an escaping invertible: single characters are replaced, what replaces them
      begins with a character that is itself replaced, and no replacement is the beginning
      of another. */
  ghost predicate Invertible(t: Table) {
    && (forall k :: 0 <= k < |t| ==> |t[k].0| == 1 && t[k].1 != "" && HasKey(t, [t[k].1[0]]))
    && (forall j, k :: 0 <= j < k < |t| ==> Apart(t[j].1, t[k].1))
  }

  lemma InvertibleKeys(t: Table)
    requires Invertible(t)
    ensures NonEmptyKeys(t) && NonEmptyKeys(Swapped(t)) && Distinct(t)
  {
    forall j, k | 0 <= j < k < |t| ensures t[j].1 != t[k].1 {
      assert Apart(t[j].1, t[k].1);
    }
  }

  lemma ApartIsNoPrefix(a: string, b: string, rest: string)
    requires Apart(a, b)
    ensures !(a <= b + rest)
  {
    var p :| 0 <= p < |a| && p < |b| && a[p] != b[p];
    assert (b + rest)[p] == b[p];
  }

  /** A replacement at the front is recognised, whatever follows it. */
  lemma {:induction false} RecognisesOwn(t: Table, k: nat, rest: string, from: nat)
    requires from <= k < |t|
    requires forall j :: 0 <= j < k ==> Apart(t[j].1, t[k].1)
    ensures FirstMatch(Swapped(t), t[k].1 + rest, from) == k
    decreases k - from
  {
    if from < k {
      ApartIsNoPrefix(t[from].1, t[k].1, rest);
      RecognisesOwn(t, k, rest, from + 1);
    }
  }

  lemma SingleKey(key: string, c: char, rest: string)
    requires |key| == 1
    ensures key <= [c] + rest <==> key == [c]
  {
    assert ([c] + rest)[0] == c;
  }

  /** With single-character keys, what matches depends on the first character only. */
  lemma {:induction false} MatchByHead(t: Table, c: char, a: string, b: string, from: nat)
    requires from <= |t| && forall k :: 0 <= k < |t| ==> |t[k].0| == 1
    ensures FirstMatch(t, [c] + a, from) == FirstMatch(t, [c] + b, from)
    decreases |t| - from
  {
    if from < |t| {
      SingleKey(t[from].0, c, a);
      SingleKey(t[from].0, c, b);
      MatchByHead(t, c, a, b, from + 1);
    }
  }

  lemma KeyMatches(t: Table, c: char, rest: string)
    requires HasKey(t, [c])
    ensures Matches(t, [c] + rest)
  {
    var j :| 0 <= j < |t| && t[j].0 == [c];
    MatchIsFound(t, [c] + rest, j, 0);
  }

  lemma HeadOfPrefix(a: string, c: char, rest: string)
    requires a != "" && a <= [c] + rest
    ensures a[0] == c
  {
  }

  /** A character that is not replaced begins no replacement. */
  lemma {:induction false} RecognisesPlain(t: Table, c: char, rest: string, from: nat)
    requires from <= |t| && !HasKey(t, [c])
    requires forall k :: 0 <= k < |t| ==> t[k].1 != "" && HasKey(t, [t[k].1[0]])
    ensures FirstMatch(Swapped(t), [c] + rest, from) == |t|
    decreases |t| - from
  {
    if from < |t| {
      assert HasKey(t, [t[from].1[0]]);
      if t[from].1 <= [c] + rest { HeadOfPrefix(t[from].1, c, rest); }
      RecognisesPlain(t, c, rest, from + 1);
    }
  }

  lemma {:induction false} ReplaceBack(t: Table, s: string)
    requires Invertible(t) && NonEmptyKeys(t) && NonEmptyKeys(Swapped(t))
    ensures Replace(Swapped(t), Replace(t, s)) == s
  {
    if s != "" {
      var c, rest := s[0], Replace(t, s[1..]);
      ReplaceBack(t, s[1..]);
      assert s == [c] + s[1..];
      MatchByHead(t, c, s[1..], rest, 0);
      if Matches(t, s) {
        var k := FirstMatch(t, s);
        OneKey(t, k, c, s[1..]);
        RecognisesOwn(t, k, rest, 0);
        FrontReplaced(Swapped(t), k, t[k].1, rest);
      } else {
        if HasKey(t, [c]) { KeyMatches(t, c, s[1..]); }
        RecognisesPlain(t, c, rest, 0);
        FrontKept(Swapped(t), c, rest);
      }
    }
  }

  lemma OneKey(t: Table, k: nat, c: char, rest: string)
    requires Invertible(t) && k < |t| && t[k].0 <= [c] + rest
    ensures t[k].0 == [c]
  {
    SingleKey(t[k].0, c, rest);
  }

  lemma FrontReplaced(t: Table, k: nat, front: string, rest: string)
    requires NonEmptyKeys(t) && k < |t| && front == t[k].0 && FirstMatch(t, front + rest) == k
    ensures Replace(t, front + rest) == t[k].1 + Replace(t, rest)
  {
    assert (front + rest)[|front|..] == rest;
  }

  lemma FrontKept(t: Table, c: char, rest: string)
    requires NonEmptyKeys(t) && FirstMatch(t, [c] + rest) == |t|
    ensures Replace(t, [c] + rest) == [c] + Replace(t, rest)
  {
    assert ([c] + rest)[1..] == rest;
  }

  lemma EscapeMapIsInvertible()
    ensures Invertible(ESCAPE_MAP)
  {
    var t := ESCAPE_MAP;
    assert t[0].0 == "&";
    assert forall k :: 0 <= k < 6 ==> t[k].1[0] == '&' && |t[k].1| >= 4;
    assert t[0].1[1] == 'a' && t[1].1[1] == 'l' && t[2].1[1] == 'g' && t[3].1[1] == 'q';
    assert t[4].1[1] == '#' == t[5].1[1] && t[4].1[3] == '2' && t[5].1[3] == '6';
    forall j, k | 0 <= j < k < 6 ensures Apart(t[j].1, t[k].1) {
      var p := if j == 4 then 3 else 1;
      assert t[j].1[p] != t[k].1[p];
    }
  }

  /** The test before the replacement saves work and changes nothing. */
  lemma EscaperReplaces(t: Table, s: Option<string>)
    requires NonEmptyKeys(t)
    ensures Escaper(t, s) == match s case None => "" case Some(x) => Replace(t, x)
  {
    var text := match s case None => "" case Some(x) => x;
    if !Test(t, text) { ReplaceNothing(t, text); }
  }

  /** Escaping and then unescaping gives every string back; and a browser shows the escaped string
      as the string that was escaped. */
  method EscapeUnescape(s: string) returns (escaped: string, back: string)
    ensures back == s && Decoded(escaped) == s
    ensures forall c :: c in escaped ==> !IsMarkup(c)
  {
    EscapeMapIsInvertible();
    InvertibleKeys(ESCAPE_MAP);
    var unescapeMap := Invert(ESCAPE_MAP);
    escaped := Escaper(ESCAPE_MAP, Some(s));
    back := Escaper(unescapeMap, Some(escaped));
    EscaperReplaces(ESCAPE_MAP, Some(s));
    EscaperReplaces(unescapeMap, Some(escaped));
    ReplaceBack(ESCAPE_MAP, s);
    EscapedIsSafe(s);
    EscapedIsShown(s);
  }

  // ---------------------------------------------------------------- what a browser shows

  lemma NumberIsRead()
    ensures HexValue("27") == 0x27 && HexValue("60") == 0x60
  {
    assert "27"[..1] == "2" && "60"[..1] == "6";
    assert HexValue("2") == 2 && HexValue("6") == 6 by {
      assert "2"[..0] == "" && "6"[..0] == "";
    }
  }

  /** Each replacement refers to the character that it replaces. */
  lemma EntityMeans(k: nat) returns (name: string)
    requires k < |ESCAPE_MAP|
    ensures ESCAPE_MAP[k].1 == "&" + name + ";" && forall j :: 0 <= j < |name| ==> name[j] != ';'
    ensures |ESCAPE_MAP[k].0| == 1 && Referred(name) == Some(ESCAPE_MAP[k].0[0])
  {
    NumberIsRead();
    if k == 0 { name := "amp"; }
    else if k == 1 { name := "lt"; }
    else if k == 2 { name := "gt"; }
    else if k == 3 { name := "quot"; }
    else if k == 4 { name := "#x27"; assert name[2..] == "27" && name[..2] == "#x"; }
    else { name := "#x60"; assert name[2..] == "60" && name[..2] == "#x"; }
  }

  lemma AmpersandMatches(s: string)
    requires s != "" && s[0] == '&'
    ensures Matches(ESCAPE_MAP, s)
  {
    assert ESCAPE_MAP[0].0 == "&" <= s;
    MatchIsFound(ESCAPE_MAP, s, 0, 0);
  }

  lemma {:induction false} EscapedIsShown(s: string)
    requires NonEmptyKeys(ESCAPE_MAP)
    ensures Decoded(Replace(ESCAPE_MAP, s)) == s
  {
    var t := ESCAPE_MAP;
    if s != "" {
      var rest := Replace(t, s[1..]);
      EscapedIsShown(s[1..]);
      assert s == [s[0]] + s[1..];
      if Matches(t, s) {
        var k := FirstMatch(t, s);
        var name := EntityMeans(k);
        SingleKey(t[k].0, s[0], s[1..]);
        DecodesReference(name, rest);
      } else {
        if s[0] == '&' { AmpersandMatches(s); }
        DecodesPlain(s[0], rest);
      }
    }
  }

  /** Strings are escaped piece by piece: escaping a concatenation concatenates what the parts
      become. */
  lemma {:induction false} ReplaceConcat(t: Table, a: string, b: string)
    requires NonEmptyKeys(t) && forall k :: 0 <= k < |t| ==> |t[k].0| == 1
    ensures Replace(t, a + b) == Replace(t, a) + Replace(t, b)
  {
    if a == "" {
      assert a + b == b;
    } else {
      var c := a[0];
      assert a == [c] + a[1..] && (a + b)[1..] == a[1..] + b && a + b == [c] + (a[1..] + b);
      MatchByHead(t, c, a[1..], a[1..] + b, 0);
      ReplaceConcat(t, a[1..], b);
    }
  }

  lemma EscapeConcat(a: string, b: string)
    ensures NonEmptyKeys(ESCAPE_MAP)
    ensures Escaper(ESCAPE_MAP, Some(a + b)) == Escaper(ESCAPE_MAP, Some(a)) + Escaper(ESCAPE_MAP, Some(b))
  {
    EscapeMapIsInvertible();
    InvertibleKeys(ESCAPE_MAP);
    EscaperReplaces(ESCAPE_MAP, Some(a));
    EscaperReplaces(ESCAPE_MAP, Some(b));
    EscaperReplaces(ESCAPE_MAP, Some(a + b));
    ReplaceConcat(ESCAPE_MAP, a, b);
  }

  predicate IsMarkup(c: char) {
    c == '<' || c == '>' || c == '"' || c == '\'' || c == '`'
  }

  lemma MarkupIsReplaced(s: string)
    requires s != "" && IsMarkup(s[0])
    ensures Matches(ESCAPE_MAP, s)
  {
    var t := ESCAPE_MAP;
    var k := if s[0] == '<' then 1 else if s[0] == '>' then 2 else if s[0] == '"' then 3
             else if s[0] == '\'' then 4 else 5;
    assert t[k].0 == [s[0]] <= s;
    MatchIsFound(t, s, k, 0);
  }

  lemma EntitiesAreSafe(k: nat)
    requires k < |ESCAPE_MAP|
    ensures |ESCAPE_MAP[k].0| == 1
    ensures forall c :: c in ESCAPE_MAP[k].1 ==> !IsMarkup(c)
  {
  }

  /** No markup character except the ampersand of an entity is left. */
  lemma {:induction false} EscapedIsSafe(s: string)
    requires NonEmptyKeys(ESCAPE_MAP)
    ensures forall c :: c in Replace(ESCAPE_MAP, s) ==> !IsMarkup(c)
  {
    if s != "" {
      if Matches(ESCAPE_MAP, s) {
        var k := FirstMatch(ESCAPE_MAP, s);
        EntitiesAreSafe(k);
        EscapedIsSafe(s[|ESCAPE_MAP[k].0|..]);
      } else {
        if IsMarkup(s[0]) { MarkupIsReplaced(s); }
        EscapedIsSafe(s[1..]);
      }
    }
  }
}
