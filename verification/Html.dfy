/** How a browser reads the character references of HTML that matter here: four names, and numbers
    in hexadecimal. A reference that it does not know is text. */
module Html {
  import opened Wrappers
  import opened Digits

  function Referred(name: string): Option<char> {
    if name == "amp" then Some('&')
    else if name == "lt" then Some('<')
    else if name == "gt" then Some('>')
    else if name == "quot" then Some('"')
    else if |name| > 2 && name[..2] == "#x" && AreDigits(name[2..]) && HexValue(name[2..]) < 0x80
    then Some(HexValue(name[2..]) as char)
    else None
  }

  function FindSemicolon(s: string): (p: nat)
    ensures p <= |s|
  {
    if s == "" || s[0] == ';' then 0 else 1 + FindSemicolon(s[1..])
  }

  function Decoded(s: string): string
    decreases |s|
  {
    if s == "" then ""
    else
      var p := FindSemicolon(s);
      if s[0] == '&' && p < |s| && Referred(s[1..p]).Some? then [Referred(s[1..p]).value] + Decoded(s[p + 1..])
      else [s[0]] + Decoded(s[1..])
  }

  lemma {:induction false} SemicolonIsFound(a: string, b: string)
    requires forall k :: 0 <= k < |a| ==> a[k] != ';'
    ensures FindSemicolon(a + (";" + b)) == |a|
  {
    if a != "" {
      assert (a + (";" + b))[1..] == a[1..] + (";" + b);
      SemicolonIsFound(a[1..], b);
    }
  }

  lemma DecodesReference(name: string, rest: string)
    requires (forall k :: 0 <= k < |name| ==> name[k] != ';') && Referred(name).Some?
    ensures Decoded("&" + name + ";" + rest) == [Referred(name).value] + Decoded(rest)
  {
    var s := "&" + name + ";" + rest;
    var front := "&" + name;
    SemicolonIsFound(front, rest);
    assert s == front + (";" + rest);
    assert s[1..|front|] == name && s[|front| + 1..] == rest;
  }

  lemma DecodesPlain(c: char, rest: string)
    requires c != '&'
    ensures Decoded([c] + rest) == [c] + Decoded(rest)
  {
    assert ([c] + rest)[1..] == rest;
  }
}
