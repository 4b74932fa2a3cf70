/** Python's `str.strip()` with no argument. */
module Text {

  /** The characters for which Python's `str.isspace()` holds. */
  predicate IsSpace(c: char)
  {
    || c == ' '
    || ('\t' <= c <= '\r')                 // tab, line feed, vertical tab, form feed, carriage return
    || ('\U{1C}' <= c <= '\U{1F}')         // file, group, record and unit separators
    || c == '\U{85}' || c == '\U{A0}'       // next line, no-break space
    || c == '\U{1680}'
    || ('\U{2000}' <= c <= '\U{200A}')     // en quad .. hair space
    || c == '\U{2028}' || c == '\U{2029}'   // line and paragraph separators
    || c == '\U{202F}' || c == '\U{205F}' || c == '\U{3000}'
  }

  predicate AllSpace(s: string)
  {
    forall i :: 0 <= i < |s| ==> IsSpace(s[i])
  }

  /** Index of the first character that is not whitespace (|s| if there is none). */
  function FirstNonSpace(s: string): (k: nat)
    ensures k <= |s|
    ensures AllSpace(s[..k])
    ensures k == |s| || !IsSpace(s[k])
  {
    if |s| > 0 && IsSpace(s[0]) then
      var k' := FirstNonSpace(s[1..]);
      assert s[1..][..k'] == s[1..k' + 1];
      1 + k'
    else 0
  }

  /** Length of s once its trailing whitespace is dropped. */
  function EndNonSpace(s: string): (k: nat)
    ensures k <= |s|
    ensures AllSpace(s[k..])
    ensures k == 0 || !IsSpace(s[k - 1])
  {
    if |s| > 0 && IsSpace(s[|s| - 1]) then
      var k := EndNonSpace(s[..|s| - 1]);
      assert s[..|s| - 1][k..] + [s[|s| - 1]] == s[k..];
      k
    else |s|
  }

  /** `s.strip()`: s without its leading and trailing whitespace. */
  function Strip(s: string): (r: string)
    ensures exists i, j :: 0 <= i <= j <= |s| && r == s[i..j] && AllSpace(s[..i]) && AllSpace(s[j..])
    ensures r == [] || (!IsSpace(r[0]) && !IsSpace(r[|r| - 1]))
  {
    var i := FirstNonSpace(s);
    var t := s[i..];
    var j := EndNonSpace(t);
    assert t[..j] == s[i..i + j] && t[j..] == s[i + j..];
    t[..j]
  }

  /** Leading whitespace is skipped character by character. */
  lemma {:induction false} FirstNonSpaceSkips(pre: string, rest: string)
    requires AllSpace(pre)
    ensures FirstNonSpace(pre + rest) == |pre| + FirstNonSpace(rest)
  {
    if pre != [] {
      assert (pre + rest)[0] == pre[0];
      assert (pre + rest)[1..] == pre[1..] + rest;
      FirstNonSpaceSkips(pre[1..], rest);
    } else {
      assert pre + rest == rest;
    }
  }

  /** Trailing whitespace is skipped character by character. */
  lemma {:induction false} EndNonSpaceSkips(rest: string, post: string)
    requires AllSpace(post)
    ensures EndNonSpace(rest + post) == EndNonSpace(rest)
  {
    if post != [] {
      var s := rest + post;
      assert s[|s| - 1] == post[|post| - 1];
      assert s[..|s| - 1] == rest + post[..|post| - 1];
      EndNonSpaceSkips(rest, post[..|post| - 1]);
    } else {
      assert rest + post == rest;
    }
  }

  /** Stripping a string padded with whitespace gives back the unpadded string. */
  lemma StripOfPadded(pre: string, core: string, post: string)
    requires AllSpace(pre) && AllSpace(post)
    requires core == [] || (!IsSpace(core[0]) && !IsSpace(core[|core| - 1]))
    ensures Strip(pre + core + post) == core
  {
    var s := pre + core + post;
    assert s == pre + (core + post);
    FirstNonSpaceSkips(pre, core + post);
    EndNonSpaceSkips(core, post);
    if core == [] {
      assert core + post == post;
      FirstNonSpaceSkips(post, []);
      assert post + [] == post;
    } else {
      assert (core + post)[0] == core[0];
    }
    assert s[|pre|..] == core + post;
  }

  /** Stripping is idempotent. */
  lemma StripIdempotent(s: string)
    ensures Strip(Strip(s)) == Strip(s)
  {
    StripOfPadded([], Strip(s), []);
    assert [] + Strip(s) + [] == Strip(s);
  }
}
