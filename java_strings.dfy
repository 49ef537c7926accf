/** The three java.lang.String operations the loader relies on. Strings are
    sequences of characters; UTF-16 surrogate pairs are not modelled. */
module JavaStrings {
  import opened Wrappers

  /** `s.indexOf(c)`: the first position of `c` in `s`, or -1 when absent. */
  function IndexOf(s: string, c: char): (r: int)
    ensures -1 <= r < |s|
    ensures r == -1 <==> c !in s
    ensures 0 <= r ==> s[r] == c && c !in s[..r]
  {
    if |s| == 0 then -1
    else if s[0] == c then 0
    else
      var k := IndexOf(s[1..], c);
      if k == -1 then -1
      else
        assert s[..k + 1] == [s[0]] + s[1..][..k];
        k + 1
  }

  /** `s.substring(begin)`: throws when `begin` lies outside `0..|s|`. */
  function Substring(s: string, begin: int): (r: Result<string>)
    ensures r.Ok? <==> 0 <= begin <= |s|
    ensures r.Ok? ==> r.value == s[begin..]
    ensures r.Err? ==> r.error == StringIndexOutOfBounds
  {
    if 0 <= begin <= |s| then Ok(s[begin..]) else Err(StringIndexOutOfBounds)
  }

  /** What `substring(begin)` drops and what it keeps make up the string:
      the kept suffix is `|s| - begin` characters long. */
  lemma SubstringSplits(s: string, begin: int)
    ensures Substring(s, begin).Ok? ==>
      s[..begin] + Substring(s, begin).value == s && |Substring(s, begin).value| == |s| - begin
    ensures !(0 <= begin <= |s|) ==> Substring(s, begin) == Err(StringIndexOutOfBounds)
  {
    if 0 <= begin <= |s| {
      assert s[..begin] + s[begin..] == s;
    }
  }

  /** `t` occurs in `s` starting at position `k`. */
  predicate OccursAt(s: string, t: string, k: int) {
    0 <= k && k + |t| <= |s| && s[k..k + |t|] == t
  }

  /** `t` occurs somewhere in `s`. */
  predicate Contains(s: string, t: string) {
    exists k :: 0 <= k <= |s| && OccursAt(s, t, k)
  }

  /** `s.replace(t, "")`: every occurrence of `t` found scanning left to
      right, each search resuming after the previous match, is deleted.
      An empty target leaves the string as it is. */
  function RemoveAll(s: string, t: string): (r: string)
    ensures |r| <= |s|
    decreases |s|
  {
    if |t| == 0 || |s| < |t| then s
    else if s[..|t|] == t then RemoveAll(s[|t|..], t)
    else [s[0]] + RemoveAll(s[1..], t)
  }

  /** A string that does not contain the target comes back unchanged. */
  lemma {:induction false} RemoveAllAbsent(s: string, t: string)
    requires !Contains(s, t)
    ensures RemoveAll(s, t) == s
    decreases |s|
  {
    if |t| == 0 {
      assert OccursAt(s, t, 0);
    } else if |s| >= |t| {
      assert !OccursAt(s, t, 0);
      assert !Contains(s[1..], t) by {
        forall k | OccursAt(s[1..], t, k)
          ensures false
        {
          assert s[1..][k..k + |t|] == s[k + 1..k + 1 + |t|];
          assert OccursAt(s, t, k + 1);
        }
      }
      RemoveAllAbsent(s[1..], t);
    }
  }

  /** An occurrence at the very front is deleted and the scan goes on after it. */
  lemma RemoveAllLeading(t: string, s: string)
    requires |t| > 0
    ensures RemoveAll(t + s, t) == RemoveAll(s, t)
  {
    assert (t + s)[..|t|] == t;
    assert (t + s)[|t|..] == s;
  }

  /** Stripping a namespace: `(t + s).replace(t, "")` is `s` when `s` itself
      does not contain `t`. */
  lemma StripNamespace(t: string, s: string)
    requires |t| > 0
    requires !Contains(s, t)
    ensures RemoveAll(t + s, t) == s
  {
    RemoveAllLeading(t, s);
    RemoveAllAbsent(s, t);
  }
}
