// What String.prototype.trim leaves of a string.
module Text {
  // The characters it removes.
  predicate IsSpace(ch: char) {
    ch in "\t\n\r " || ch in "\U{0b}\U{0c}\U{a0}\U{1680}\U{2028}\U{2029}\U{202f}\U{205f}\U{3000}\U{feff}"
    || '\U{2000}' <= ch <= '\U{200a}'
  }

  // White space and line terminators, as sections 12.2 and 12.3 of ECMA-262 list them.
  lemma {:induction false} SpaceCodes(ch: char)
    ensures IsSpace(ch) <==>
      || 9 <= ch as int <= 13 || ch as int in {0x20, 0xa0, 0x1680, 0x2028, 0x2029, 0x202f, 0x205f, 0x3000, 0xfeff}
      || 0x2000 <= ch as int <= 0x200a
  {
    assert ch as int == 9 ==> ch == '\t';
  }

  function TrimStart(s: string): string {
    if s != [] && IsSpace(s[0]) then TrimStart(s[1..]) else s
  }

  function TrimEnd(s: string): string {
    if s != [] && IsSpace(s[|s| - 1]) then TrimEnd(s[..|s| - 1]) else s
  }

  function Trim(s: string): string { TrimEnd(TrimStart(s)) }

  predicate AllSpace(s: string) { forall i :: 0 <= i < |s| ==> IsSpace(s[i]) }

  // No space to remove at either end.
  predicate Bare(s: string) { s != "" ==> !IsSpace(s[0]) && !IsSpace(s[|s| - 1]) }

  lemma {:induction false} TrimStartOf(a: string, s: string)
    requires AllSpace(a) && (s != "" ==> !IsSpace(s[0]))
    ensures TrimStart(a + s) == s
    decreases |a|
  {
    if a == "" {
      assert a + s == s;
    } else {
      assert (a + s)[1..] == a[1..] + s;
      TrimStartOf(a[1..], s);
    }
  }

  lemma {:induction false} TrimEndOf(s: string, b: string)
    requires AllSpace(b) && (s != "" ==> !IsSpace(s[|s| - 1]))
    ensures TrimEnd(s + b) == s
    decreases |b|
  {
    if b == "" {
      assert s + b == s;
    } else {
      assert (s + b)[..|s + b| - 1] == s + b[..|b| - 1];
      TrimEndOf(s, b[..|b| - 1]);
    }
  }

  // Trimming takes off the spaces around a text, all of them and nothing else.
  lemma {:induction false} TrimOf(a: string, s: string, b: string)
    requires AllSpace(a) && AllSpace(b) && Bare(s)
    ensures Trim(a + s + b) == s
  {
    if s == "" {
      assert a + s + b == (a + b) + "";
      TrimStartOf(a + b, "");
      assert TrimEnd("") == "";
    } else {
      assert a + s + b == a + (s + b) && (s + b)[0] == s[0];
      TrimStartOf(a, s + b);
      TrimEndOf(s, b);
    }
  }
}
