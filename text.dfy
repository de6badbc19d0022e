/** The string operations the storefront relies on: `toLowerCase`, `toUpperCase`, `trim` and
    `includes`. Case mapping is modelled per character over the ASCII letters. */
module Text {

  /** `toLowerCase` of one character (ASCII letters only). */
  function LowerChar(c: char): char
  {
    if 'A' <= c <= 'Z' then (c as int + 32) as char else c
  }

  /** `toUpperCase` of one character (ASCII letters only). */
  function UpperChar(c: char): char
  {
    if 'a' <= c <= 'z' then (c as int - 32) as char else c
  }

  /** Applies `f` to every character, as `toLowerCase` and `toUpperCase` do. */
  function MapChars(s: string, f: char -> char): (r: string)
    ensures |r| == |s| && forall i :: 0 <= i < |s| ==> r[i] == f(s[i])
  {
    seq(|s|, i requires 0 <= i < |s| => f(s[i]))
  }

  /** `s.toLowerCase()`. */
  function Lower(s: string): string
  {
    MapChars(s, LowerChar)
  }

  /** `s.toUpperCase()`. */
  function Upper(s: string): string
  {
    MapChars(s, UpperChar)
  }

  /** The characters JavaScript's `trim` removes: WhiteSpace (tab, vertical tab, form feed,
      space, no-break space, byte order mark and the other Unicode space separators) and
      LineTerminator (line feed, carriage return, line and paragraph separators). */
  predicate IsSpace(c: char)
  {
    var n := c as int;
    n == 0x09 || n == 0x0A || n == 0x0B || n == 0x0C || n == 0x0D || n == 0x20 ||
    n == 0xA0 || n == 0x1680 || (0x2000 <= n <= 0x200A) || n == 0x2028 || n == 0x2029 ||
    n == 0x202F || n == 0x205F || n == 0x3000 || n == 0xFEFF
  }

  predicate AllSpace(s: string)
  {
    forall i :: 0 <= i < |s| ==> IsSpace(s[i])
  }

  function TrimStart(s: string): (r: string)
    ensures |r| <= |s| && r == s[|s| - |r|..]
    ensures r == [] || !IsSpace(r[0])
    ensures AllSpace(s[..|s| - |r|])
  {
    if s != [] && IsSpace(s[0]) then
      var r := TrimStart(s[1..]);
      assert s[..|s| - |r|] == [s[0]] + s[1..][..|s| - 1 - |r|];
      r
    else s
  }

  function TrimEnd(s: string): (r: string)
    ensures |r| <= |s| && r == s[..|r|]
    ensures r == [] || !IsSpace(r[|r| - 1])
    ensures AllSpace(s[|r|..])
  {
    if s != [] && IsSpace(s[|s| - 1]) then
      var init := s[..|s| - 1];
      var r := TrimEnd(init);
      assert init[..|r|] == s[..|r|];
      assert s[|r|..] == init[|r|..] + [s[|s| - 1]];
      r
    else s
  }

  /** `s.trim()`. */
  function Trim(s: string): string
  {
    TrimEnd(TrimStart(s))
  }

  /** `q` occurs in `s` starting at position `i`. */
  predicate OccursAt(s: string, q: string, i: int)
  {
    0 <= i && i + |q| <= |s| && s[i..i + |q|] == q
  }

  /** `s.includes(q)`. */
  predicate Contains(s: string, q: string)
  {
    exists i | 0 <= i <= |s| :: OccursAt(s, q, i)
  }

  /** `s.toLowerCase().includes(q.toLowerCase())`. */
  predicate ContainsIgnoringCase(s: string, q: string)
  {
    Contains(Lower(s), Lower(q))
  }

  /** Every string includes the empty string, so an empty search query matches everything. */
  lemma ContainsEmpty(s: string)
    ensures Contains(s, "")
  {
    assert OccursAt(s, "", 0);
  }

  /** A string is found in itself, whatever the case of its letters. */
  lemma ContainsItself(s: string)
    ensures ContainsIgnoringCase(s, s)
  {
    assert Lower(s)[0..|s|] == Lower(s);
    assert OccursAt(Lower(s), Lower(s), 0);
  }

  /** The results of `trim` never begin or end with white space. */
  lemma TrimBounds(s: string)
    ensures Trim(s) == [] || (!IsSpace(Trim(s)[0]) && !IsSpace(Trim(s)[|Trim(s)| - 1]))
  {
    var t := TrimStart(s);
    var r := TrimEnd(t);
    if r != [] {
      assert r[0] == t[0];
    }
  }

  /** Trimming a string that neither begins nor ends with white space changes nothing. */
  lemma TrimOfTrimmed(s: string)
    requires s == [] || (!IsSpace(s[0]) && !IsSpace(s[|s| - 1]))
    ensures Trim(s) == s
  {
  }

  /** Trimming is insensitive to white space added around the string. */
  lemma {:induction false} TrimPadded(pre: string, s: string, post: string)
    requires AllSpace(pre) && AllSpace(post)
    ensures Trim(pre + s + post) == Trim(s)
  {
    assert pre + s + post == pre + (s + post);
    TrimStartPadded(pre, s + post);
    TrimStartSkips(s, post);
    var t := TrimStart(s);
    if t == [] {
      assert t + post == post;
      TrimStartAllSpace(post);
    } else {
      TrimStartKeeps(t, post);
      TrimEndPadded(t, post);
    }
  }

  /** What `TrimStart` removes from `s` it also removes from `s + post`. */
  lemma TrimStartSkips(s: string, post: string)
    ensures TrimStart(s + post) == TrimStart(TrimStart(s) + post)
  {
    var t := TrimStart(s);
    var lead := s[..|s| - |t|];
    assert s == lead + t;
    assert s + post == lead + (t + post);
    TrimStartPadded(lead, t + post);
  }

  /** A string that starts with a non-space character is left alone by `TrimStart`. */
  lemma TrimStartKeeps(t: string, post: string)
    requires t != [] && !IsSpace(t[0])
    ensures TrimStart(t + post) == t + post
  {
    assert (t + post)[0] == t[0];
  }

  lemma {:induction false} TrimStartPadded(pre: string, s: string)
    requires AllSpace(pre)
    ensures TrimStart(pre + s) == TrimStart(s)
  {
    if pre != [] {
      assert (pre + s)[1..] == pre[1..] + s;
      TrimStartPadded(pre[1..], s);
    } else {
      assert pre + s == s;
    }
  }

  lemma {:induction false} TrimStartAllSpace(s: string)
    requires AllSpace(s)
    ensures TrimStart(s) == []
  {
    if s != [] {
      TrimStartAllSpace(s[1..]);
    }
  }

  /** White space appended to a string disappears under `TrimEnd`. */
  lemma {:induction false} TrimEndPadded(s: string, post: string)
    requires AllSpace(post)
    ensures TrimEnd(s + post) == TrimEnd(s)
  {
    if post != [] {
      var p := post[..|post| - 1];
      assert (s + post)[..|s + post| - 1] == s + p;
      TrimEndPadded(s, p);
    } else {
      assert s + post == s;
    }
  }

  /** `f` turns white space into white space and nothing else into white space. */
  ghost predicate KeepsSpace(f: char -> char)
  {
    forall c :: IsSpace(f(c)) == IsSpace(c)
  }

  /** Changing the case of a letter never creates or removes white space. */
  lemma CaseMapsKeepSpace()
    ensures KeepsSpace(LowerChar) && KeepsSpace(UpperChar)
  {
  }

  lemma {:induction false} TrimStartMap(s: string, f: char -> char)
    requires KeepsSpace(f)
    ensures TrimStart(MapChars(s, f)) == MapChars(TrimStart(s), f)
  {
    if s != [] && IsSpace(s[0]) {
      assert MapChars(s, f)[1..] == MapChars(s[1..], f);
      TrimStartMap(s[1..], f);
    }
  }

  lemma {:induction false} TrimEndMap(s: string, f: char -> char)
    requires KeepsSpace(f)
    ensures TrimEnd(MapChars(s, f)) == MapChars(TrimEnd(s), f)
  {
    if s != [] && IsSpace(s[|s| - 1]) {
      assert MapChars(s, f)[..|s| - 1] == MapChars(s[..|s| - 1], f);
      TrimEndMap(s[..|s| - 1], f);
    }
  }

  /** Trimming commutes with a change of case. */
  lemma TrimMap(s: string, f: char -> char)
    requires KeepsSpace(f)
    ensures Trim(MapChars(s, f)) == MapChars(Trim(s), f)
  {
    TrimStartMap(s, f);
    TrimEndMap(TrimStart(s), f);
  }
}
