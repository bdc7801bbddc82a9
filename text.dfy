/** The few Python string operations the core relies on: `isspace`, `lower`,
    `strip`, `replace` of one character and `sep.join(parts)`. */
module Text {

  /** Python's `str.isspace()` for a single character. */
  predicate IsSpace(c: char)
  {
    c in {' ', '\t', '\n', '\r', '\U{B}', '\U{C}', '\U{1C}', '\U{1D}', '\U{1E}', '\U{1F}',
          '\U{85}', '\U{A0}', '\U{1680}', '\U{2000}', '\U{2001}', '\U{2002}', '\U{2003}',
          '\U{2004}', '\U{2005}', '\U{2006}', '\U{2007}', '\U{2008}', '\U{2009}', '\U{200A}',
          '\U{2028}', '\U{2029}', '\U{202F}', '\U{205F}', '\U{3000}'}
  }

  /** Python's `not s.strip()`: every character of `s` is whitespace (the
      empty string included); `StripEmptyIffBlank` shows the two agree. */
  predicate IsBlank(s: string)
  {
    forall i :: 0 <= i < |s| ==> IsSpace(s[i])
  }

  /** Python's `lower()` on one character, for the ASCII letters. */
  function LowerChar(c: char): char
  {
    if 'A' <= c <= 'Z' then (c as int + 32) as char else c
  }

  /** Python's `s.lower()`, character by character: each upper-case ASCII
      letter becomes its lower-case letter, 32 code points further on, and
      every other character is kept. */
  function Lower(s: string): (r: string)
    ensures |r| == |s|
    ensures forall i :: 0 <= i < |r| ==> !('A' <= r[i] <= 'Z')
    ensures forall i :: 0 <= i < |s| && 'A' <= s[i] <= 'Z' ==> r[i] as int == s[i] as int + 32
    ensures forall i :: 0 <= i < |s| && !('A' <= s[i] <= 'Z') ==> r[i] == s[i]
  {
    seq(|s|, i requires 0 <= i < |s| => LowerChar(s[i]))
  }

  /** Python's `s.lstrip()`: drops the leading whitespace, nothing else. */
  function TrimStart(s: string): (r: string)
    ensures |r| <= |s| && r == s[|s| - |r|..]
    ensures forall i :: 0 <= i < |s| - |r| ==> IsSpace(s[i])
    ensures r == [] || !IsSpace(r[0])
  {
    if |s| > 0 && IsSpace(s[0]) then TrimStart(s[1..]) else s
  }

  /** Python's `s.rstrip()`: drops the trailing whitespace, nothing else. */
  function TrimEnd(s: string): (r: string)
    ensures |r| <= |s| && r == s[..|r|]
    ensures forall i :: |r| <= i < |s| ==> IsSpace(s[i])
    ensures r == [] || !IsSpace(r[|r| - 1])
  {
    if |s| > 0 && IsSpace(s[|s| - 1]) then TrimEnd(s[..|s| - 1]) else s
  }

  /** Python's `s.strip()`: neither starts nor ends with whitespace. */
  function Strip(s: string): (r: string)
    ensures r == [] || (!IsSpace(r[0]) && !IsSpace(r[|r| - 1]))
  {
    var t := TrimStart(s);
    var r := TrimEnd(t);
    assert r != [] ==> r[0] == t[0];
    r
  }

  /** What `strip` cuts off on either side is whitespace, and what it keeps is
      a contiguous slice of its argument. */
  lemma StripIsTrimmedSlice(s: string) returns (i: nat)
    ensures i + |Strip(s)| <= |s| && Strip(s) == s[i..i + |Strip(s)|]
    ensures IsBlank(s[..i]) && IsBlank(s[i + |Strip(s)|..])
  {
    var t := TrimStart(s);
    var r := TrimEnd(t);
    i := |s| - |t|;
    assert r == s[i..i + |r|];
    var cut := s[i + |r|..];
    assert IsBlank(cut) by {
      forall j | 0 <= j < |cut| ensures IsSpace(cut[j]) {
        assert cut[j] == t[|r| + j];
      }
    }
  }

  /** Python's `s.lower().strip()`, the key normalisation of the medicine lookup. */
  function Normalize(s: string): string
  {
    Strip(Lower(s))
  }

  /** Python's `s.replace(from, to)` for single characters: every `from`
      becomes `to`, every other character is kept, so `from` is gone. */
  function ReplaceChar(s: string, from: char, to: char): (r: string)
    ensures |r| == |s|
    ensures forall i :: 0 <= i < |s| ==> r[i] == (if s[i] == from then to else s[i])
    ensures from != to ==> from !in r
  {
    seq(|s|, i requires 0 <= i < |s| => if s[i] == from then to else s[i])
  }

  /** Python's `sep.join(parts)`: every character of the result comes from
      the separator or from one of the parts. */
  function Join(sep: string, parts: seq<string>): (r: string)
    ensures forall c :: c in r ==> c in sep || exists k :: 0 <= k < |parts| && c in parts[k]
  {
    if |parts| == 0 then ""
    else if |parts| == 1 then parts[0]
    else parts[0] + sep + Join(sep, parts[1..])
  }

  /** Joining one more part appends the separator and that part, and a single
      part is joined to itself: together these fix `Join` as the parts in
      order with the separator between neighbours. */
  lemma {:induction false} JoinSnoc(sep: string, ps: seq<string>, p: string)
    ensures Join(sep, ps + [p]) == if ps == [] then p else Join(sep, ps) + sep + p
  {
    var qs := ps + [p];
    if |ps| == 0 {
      assert qs == [p];
    } else if |ps| == 1 {
      assert qs[1..] == [p];
      assert Join(sep, qs) == qs[0] + sep + Join(sep, qs[1..]);
    } else {
      var head, rest := ps[0], Join(sep, ps[1..]);
      assert qs[0] == head && qs[1..] == ps[1..] + [p];
      JoinSnoc(sep, ps[1..], p);
      assert Join(sep, qs) == head + sep + (rest + sep + p);
      assert Join(sep, ps) == head + sep + rest;
    }
  }

  /** `s.strip()` is empty exactly when `s` consists of whitespace only. */
  lemma StripEmptyIffBlank(s: string)
    ensures |Strip(s)| == 0 <==> IsBlank(s)
  {
    var r := Strip(s);
    var i := StripIsTrimmedSlice(s);
    if r == [] {
      assert s == s[..i] + s[i..];
    } else {
      assert r[0] == s[i];
    }
  }

  /** Leading whitespace makes no difference to `lstrip`. */
  lemma {:induction false} TrimStartSkipsSpace(pre: string, s: string)
    requires IsBlank(pre)
    ensures TrimStart(pre + s) == TrimStart(s)
  {
    if pre != [] {
      assert (pre + s)[0] == pre[0] && (pre + s)[1..] == pre[1..] + s;
      TrimStartSkipsSpace(pre[1..], s);
    } else {
      assert pre + s == s;
    }
  }

  /** Trailing whitespace makes no difference to `rstrip`. */
  lemma {:induction false} TrimEndSkipsSpace(s: string, post: string)
    requires IsBlank(post)
    ensures TrimEnd(s + post) == TrimEnd(s)
  {
    if post != [] {
      var last := |post| - 1;
      assert (s + post)[|s + post| - 1] == post[last];
      assert (s + post)[..|s + post| - 1] == s + post[..last];
      TrimEndSkipsSpace(s, post[..last]);
    } else {
      assert s + post == s;
    }
  }

  /** Once something is left after `lstrip`, appended text is kept as it is. */
  lemma {:induction false} TrimStartKeepsTail(s: string, post: string)
    requires TrimStart(s) != []
    ensures TrimStart(s + post) == TrimStart(s) + post
  {
    if IsSpace(s[0]) {
      assert (s + post)[1..] == s[1..] + post;
      TrimStartKeepsTail(s[1..], post);
    }
  }

  /** Text that is whitespace only is emptied by `lstrip`. */
  lemma BlankTrimsToEmpty(s: string)
    requires IsBlank(s)
    ensures TrimStart(s) == []
  {
  }

  /** `strip` ignores whitespace around its argument. */
  lemma StripIgnoresSurroundingSpace(pre: string, s: string, post: string)
    requires IsBlank(pre) && IsBlank(post)
    ensures Strip(pre + s + post) == Strip(s)
  {
    assert pre + s + post == pre + (s + post);
    TrimStartSkipsSpace(pre, s + post);
    if TrimStart(s) != [] {
      TrimStartKeepsTail(s, post);
      TrimEndSkipsSpace(TrimStart(s), post);
    } else {
      assert IsBlank(s + post) by {
        forall i | 0 <= i < |s + post| ensures IsSpace((s + post)[i]) {
          if i >= |s| { assert (s + post)[i] == post[i - |s|]; }
        }
      }
      BlankTrimsToEmpty(s + post);
    }
  }

  /** `lower` works character by character, so it splits over concatenation
      and leaves whitespace alone. */
  lemma LowerOfSurroundedText(pre: string, s: string, post: string)
    requires IsBlank(pre) && IsBlank(post)
    ensures Lower(pre + s + post) == pre + Lower(s) + post
  {
    var x, y := Lower(pre + s + post), pre + Lower(s) + post;
    assert |x| == |y|;
    forall i | 0 <= i < |x| ensures x[i] == y[i] {
      if i < |pre| {
        assert IsSpace(pre[i]);
      } else if i >= |pre| + |s| {
        assert IsSpace(post[i - |pre| - |s|]);
      }
    }
  }

  /** The normalised key of a string does not depend on the case of its ASCII
      letters nor on whitespace around it: two strings that lower-case alike
      normalise alike even after padding one of them. */
  lemma NormalizeIgnoresCaseAndPadding(pre: string, a: string, post: string, b: string)
    requires IsBlank(pre) && IsBlank(post)
    requires Lower(a) == Lower(b)
    ensures Normalize(pre + a + post) == Normalize(b)
  {
    LowerOfSurroundedText(pre, a, post);
    StripIgnoresSurroundingSpace(pre, Lower(a), post);
  }

  /** A character that occurs in neither the separator nor any part does not
      occur in the joined string. */
  lemma {:induction false} JoinAvoids(sep: string, parts: seq<string>, c: char)
    requires c !in sep
    requires forall k :: 0 <= k < |parts| ==> c !in parts[k]
    ensures c !in Join(sep, parts)
  {
    if |parts| > 1 {
      JoinAvoids(sep, parts[1..], c);
      assert c !in parts[0];
    }
  }
}
