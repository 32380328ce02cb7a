/** The label file: one class name per line, the 0-based line number being
    the class id. */
module Labels {

  /** The characters Python's `str.isspace` accepts, which `str.strip`
      removes from both ends of a string. */
  predicate IsSpace(c: char)
  {
    c in {'\U{20}', '\U{9}', '\U{A}', '\U{D}', '\U{B}', '\U{C}', '\U{1C}', '\U{1D}',
          '\U{1E}', '\U{1F}', '\U{85}', '\U{A0}', '\U{1680}', '\U{2000}', '\U{2001}', '\U{2002}',
          '\U{2003}', '\U{2004}', '\U{2005}', '\U{2006}', '\U{2007}', '\U{2008}', '\U{2009}', '\U{200A}',
          '\U{2028}', '\U{2029}', '\U{202F}', '\U{205F}', '\U{3000}'}
  }

  predicate AllSpace(s: string)
  {
    forall k :: 0 <= k < |s| ==> IsSpace(s[k])
  }

  /** `s` without its leading whitespace. */
  function StripLeft(s: string): string
  {
    if s != [] && IsSpace(s[0]) then StripLeft(s[1..]) else s
  }

  /** `s` without its trailing whitespace. */
  function StripRight(s: string): string
  {
    if s != [] && IsSpace(s[|s| - 1]) then StripRight(s[..|s| - 1]) else s
  }

  /** `StripLeft` keeps a suffix of `s`: the prefix it drops is all
      whitespace and what it keeps does not start with whitespace. */
  lemma {:induction false} StripLeftKeepsSuffix(s: string)
    ensures |StripLeft(s)| <= |s| && StripLeft(s) == s[|s| - |StripLeft(s)|..]
    ensures AllSpace(s[..|s| - |StripLeft(s)|])
    ensures StripLeft(s) == [] || !IsSpace(StripLeft(s)[0])
  {
    if s != [] && IsSpace(s[0]) {
      StripLeftKeepsSuffix(s[1..]);
      var k := |s| - |StripLeft(s)|;
      assert s[..k] == [s[0]] + s[1..][..k - 1];
    }
  }

  /** `StripRight` keeps a prefix of `s`: the suffix it drops is all
      whitespace and what it keeps does not end with whitespace. */
  lemma {:induction false} StripRightKeepsPrefix(s: string)
    ensures |StripRight(s)| <= |s| && StripRight(s) == s[..|StripRight(s)|]
    ensures AllSpace(s[|StripRight(s)|..])
    ensures StripRight(s) == [] || !IsSpace(StripRight(s)[|StripRight(s)| - 1])
  {
    if s != [] && IsSpace(s[|s| - 1]) {
      var t := s[..|s| - 1];
      StripRightKeepsPrefix(t);
      var k := |StripRight(s)|;
      assert s[k..] == t[k..] + [s[|s| - 1]];
    }
  }

  /** Python's `str.strip()` with no argument: the result is no longer than
      `s` and has no whitespace at either end. */
  function Strip(s: string): (r: string)
    ensures |r| <= |s|
    ensures r == [] || (!IsSpace(r[0]) && !IsSpace(r[|r| - 1]))
  {
    StripLeftKeepsSuffix(s);
    StripRightKeepsPrefix(StripLeft(s));
    StripRight(StripLeft(s))
  }

  /** What `Strip` removes and keeps: the result is a contiguous part of `s`
      cut only at whitespace, it neither starts nor ends with whitespace, and
      it is empty exactly when `s` is all whitespace. */
  lemma StripCharacterized(s: string)
    ensures exists i :: 0 <= i <= |s| - |Strip(s)| && Strip(s) == s[i..i + |Strip(s)|]
                        && AllSpace(s[..i]) && AllSpace(s[i + |Strip(s)|..])
    ensures Strip(s) == [] || (!IsSpace(Strip(s)[0]) && !IsSpace(Strip(s)[|Strip(s)| - 1]))
    ensures Strip(s) == [] <==> AllSpace(s)
  {
    var left := StripLeft(s);
    var r := StripRight(left);
    StripLeftKeepsSuffix(s);
    StripRightKeepsPrefix(left);
    var i := |s| - |left|;
    assert r == s[i..i + |r|];
    assert s[i + |r|..] == left[|r|..];
    if r == [] {
      assert left == [];
      assert s[..i] == s;
    }
  }

  /** Stripping twice gives what stripping once does. */
  lemma StripIdempotent(s: string)
    ensures Strip(Strip(s)) == Strip(s)
  {
    var r := Strip(s);
    StripCharacterized(s);
    if r != [] {
      assert StripLeft(r) == r;
      assert StripRight(r) == r;
    }
  }

  /** `{i: x for i, x in enumerate(xs)}`: key `i` maps to `xs[i]`, and the
      keys are exactly `0 .. |xs| - 1`. */
  function Enumerate<T>(xs: seq<T>): (m: map<int, T>)
    ensures forall i :: i in m <==> 0 <= i < |xs|
    ensures |m| == |xs|
    ensures forall i :: 0 <= i < |xs| ==> m[i] == xs[i]
  {
    if xs == [] then map[]
    else
      var n := |xs| - 1;
      var prev := Enumerate(xs[..n]);
      var m := prev[n := xs[n]];
      assert forall i :: 0 <= i < |xs| ==> m[i] == xs[i] by {
        forall i | 0 <= i < |xs| ensures m[i] == xs[i] {
          if i < n {
            assert m[i] == prev[i];
            assert xs[..n][i] == xs[i];
          }
        }
      }
      m
  }

  /** `load_labels` over the lines `f.readlines()` returns: key `i` maps to
      the `i`-th line stripped, and the keys are exactly `0 .. |lines| - 1`. */
  function LoadLabels(lines: seq<string>): (labels: map<int, string>)
    ensures forall i :: i in labels <==> 0 <= i < |lines|
    ensures |labels| == |lines|
    ensures forall i :: 0 <= i < |lines| ==> labels[i] == Strip(lines[i])
  {
    Enumerate(seq(|lines|, i requires 0 <= i < |lines| => Strip(lines[i])))
  }
}
