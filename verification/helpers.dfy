/**
 * `trim_whitespace` of `helpers.c`: skip the leading whitespace of a C
 * string, then cut the trailing whitespace off by writing a terminator
 * after the last character that is not whitespace.
 *
 * The string lives in a `char` buffer and ends at its first NUL. Whitespace
 * is what `isspace` accepts in the C locale (see `CStrings.IsSpace`).
 */
module Helpers {
  import opened CStrings

  /** `strlen`: the position of the first NUL. */
  function Strlen(s: seq<char>): (n: nat)
    requires '\0' in s
    ensures n < |s| && s[n] == '\0'
    ensures forall i :: 0 <= i < n ==> s[i] != '\0'
  {
    if s[0] == '\0' then 0 else 1 + Strlen(s[1..])
  }

  /** The C string a buffer holds: everything before its first NUL. */
  function CStr(s: seq<char>): string
    requires '\0' in s
  {
    s[..Strlen(s)]
  }

  /** A NUL at k with none before it ends the string at k. */
  lemma StrlenAt(s: seq<char>, k: nat)
    requires k < |s| && s[k] == '\0' && forall i :: 0 <= i < k ==> s[i] != '\0'
    ensures '\0' in s && Strlen(s) == k
  {
    assert s[k] == '\0';
  }

  /** The end of s[lo..hi] once trailing whitespace is dropped. */
  function TrimEnd(s: string, lo: nat, hi: nat): (e: nat)
    requires lo <= hi <= |s|
    ensures lo <= e <= hi
    ensures forall k :: e <= k < hi ==> IsSpace(s[k])
    ensures e > lo ==> !IsSpace(s[e - 1])
    decreases hi
  {
    if hi > lo && IsSpace(s[hi - 1]) then TrimEnd(s, lo, hi - 1) else hi
  }

  /** A cut after a non-space that leaves only whitespace behind is the cut `TrimEnd` finds. */
  lemma {:induction false} TrimEndAt(s: string, lo: nat, hi: nat, e: nat)
    requires lo <= e <= hi <= |s|
    requires forall k :: e <= k < hi ==> IsSpace(s[k])
    requires e > lo ==> !IsSpace(s[e - 1])
    ensures TrimEnd(s, lo, hi) == e
    decreases hi
  {
    if hi > e {
      TrimEndAt(s, lo, hi - 1, e);
    }
  }

  /** The string without its leading and trailing whitespace. */
  function Trimmed(s: string): string {
    var lo := SpacesEnd(s, 0);
    s[lo..TrimEnd(s, lo, |s|)]
  }

  /**
   * t is a trim of s: a slice of s with only whitespace around it, which
   * neither starts nor ends with whitespace.
   */
  predicate IsTrimOf(t: string, s: string) {
    exists lo, hi :: 0 <= lo <= hi <= |s| && t == s[lo..hi] &&
      AllSpace(s[..lo]) && AllSpace(s[hi..]) &&
      (t != [] ==> !IsSpace(t[0]) && !IsSpace(t[|t| - 1]))
  }

  /** `Trimmed` is a trim. */
  lemma TrimmedIsTrim(s: string)
    ensures IsTrimOf(Trimmed(s), s)
  {
    var lo := SpacesEnd(s, 0);
    var hi := TrimEnd(s, lo, |s|);
    var t := s[lo..hi];
    assert forall k :: 0 <= k < lo ==> s[..lo][k] == s[k];
    assert forall k :: 0 <= k < |s| - hi ==> s[hi..][k] == s[hi + k];
    if t != [] {
      assert t[0] == s[lo] && t[|t| - 1] == s[hi - 1];
    }
    assert 0 <= lo <= hi <= |s| && t == s[lo..hi] && AllSpace(s[..lo]) && AllSpace(s[hi..]);
  }

  /** There is only one trim, so `Trimmed` is the trim. */
  lemma TrimUnique(t: string, s: string)
    requires IsTrimOf(t, s)
    ensures t == Trimmed(s)
  {
    var lo, hi :| 0 <= lo <= hi <= |s| && t == s[lo..hi] &&
      AllSpace(s[..lo]) && AllSpace(s[hi..]) &&
      (t != [] ==> !IsSpace(t[0]) && !IsSpace(t[|t| - 1]));
    forall k | 0 <= k < lo ensures IsSpace(s[k]) {
      assert s[..lo][k] == s[k];
    }
    forall k | hi <= k < |s| ensures IsSpace(s[k]) {
      assert s[hi..][k - hi] == s[k];
    }
    if t == [] {
      TrimUniqueEmpty(s, lo, hi);
    } else {
      assert s[lo] == t[0] && s[hi - 1] == t[|t| - 1];
      TrimUniqueAt(s, lo, hi);
    }
  }

  /** A string whose whitespace covers everything but an empty middle trims to nothing. */
  lemma TrimUniqueEmpty(s: string, lo: nat, hi: nat)
    requires lo == hi <= |s|
    requires forall k :: 0 <= k < lo ==> IsSpace(s[k])
    requires forall k :: hi <= k < |s| ==> IsSpace(s[k])
    ensures Trimmed(s) == []
  {
    SpacesEndAll(s, 0);
    assert TrimEnd(s, |s|, |s|) == |s|;
  }

  /** A middle that starts and ends with a non-space, between runs of whitespace, is the trim. */
  lemma TrimUniqueAt(s: string, lo: nat, hi: nat)
    requires lo < hi <= |s|
    requires forall k :: 0 <= k < lo ==> IsSpace(s[k])
    requires forall k :: hi <= k < |s| ==> IsSpace(s[k])
    requires !IsSpace(s[lo]) && !IsSpace(s[hi - 1])
    ensures Trimmed(s) == s[lo..hi]
  {
    SpacesEndAt(s, 0, lo);
    TrimEndAt(s, lo, |s|, hi);
  }

  /** Trimming twice trims nothing more. */
  lemma TrimIdempotent(s: string)
    ensures Trimmed(Trimmed(s)) == Trimmed(s)
  {
    var t := Trimmed(s);
    TrimmedIsTrim(s);
    assert t[0..|t|] == t && t[..0] == [] && t[|t|..] == [];
    assert IsTrimOf(t, t);
    TrimUnique(t, t);
  }

  /** A string of nothing but whitespace trims to the empty string. */
  lemma TrimAllSpace(s: string)
    requires AllSpace(s)
    ensures Trimmed(s) == []
  {
    SpacesEndAll(s, 0);
  }

  /** `strlen(str)` for a suffix of the buffer that starts within the string. */
  method StrlenFrom(buf: array<char>, from: nat) returns (len: nat)
    requires '\0' in buf[..] && from <= Strlen(buf[..])
    ensures len == Strlen(buf[..]) - from
  {
    ghost var n := Strlen(buf[..]);
    var e := from;
    while buf[e] != '\0'
      invariant from <= e <= n
      decreases n - e
    {
      e := e + 1;
    }
    len := e - from;
  }

  /** The first loop of `trim_whitespace`: step over the leading whitespace. */
  method SkipSpaces(buf: array<char>) returns (start: nat)
    requires '\0' in buf[..]
    ensures start == SpacesEnd(CStr(buf[..]), 0) && start <= Strlen(buf[..])
  {
    ghost var n := Strlen(buf[..]);
    ghost var c := CStr(buf[..]);
    start := 0;
    while IsSpace(buf[start])
      invariant start <= n
      invariant forall k :: 0 <= k < start ==> IsSpace(c[k])
      decreases n - start
    {
      start := start + 1;
    }
    if start < n {
      SpacesEndAt(c, 0, start);
    } else {
      SpacesEndAll(c, 0);
    }
  }

  /**
   * The second loop of `trim_whitespace`: from the last character, step
   * back over whitespace, never past `start`; one past where it stops is
   * where the trimmed text ends.
   */
  method SkipTrailing(buf: array<char>, start: nat, len: nat) returns (end: nat)
    requires '\0' in buf[..] && 0 < len && start + len == Strlen(buf[..])
    requires !IsSpace(buf[start])
    ensures start <= end < start + len
    ensures end + 1 == TrimEnd(CStr(buf[..]), start, start + len)
  {
    ghost var n := Strlen(buf[..]);
    ghost var c := CStr(buf[..]);
    end := start + len - 1;
    while end > start && IsSpace(buf[end])
      invariant start <= end < n
      invariant forall k :: end < k < n ==> IsSpace(c[k])
      decreases end
    {
      end := end - 1;
    }
    TrimEndAt(c, start, n, end + 1);
  }

  /** Nothing but whitespace before the terminator: the string starting there is empty, and so is the trim. */
  lemma TrimToNothing(s: seq<char>, start: nat)
    requires '\0' in s && start < |s| && s[start] == '\0' && start == SpacesEnd(CStr(s), 0)
    ensures '\0' in s[start..] && CStr(s[start..]) == Trimmed(CStr(s)) == []
  {
    assert s[start..][0] == '\0';
    StrlenAt(s[start..], 0);
  }

  /** The terminator written one past the last non-space leaves exactly the trim from the start on. */
  lemma TrimCut(s: seq<char>, start: nat, end: nat)
    requires '\0' in s && start <= end < Strlen(s)
    requires start == SpacesEnd(CStr(s), 0) && end + 1 == TrimEnd(CStr(s), start, Strlen(s))
    ensures var t := s[end + 1 := '\0'];
      '\0' in t[start..] && CStr(t[start..]) == Trimmed(CStr(s)) && end + 1 == start + |Trimmed(CStr(s))|
  {
    var c := CStr(s);
    var t := s[end + 1 := '\0'];
    assert Trimmed(c) == c[start..end + 1];
    assert t[start..][end + 1 - start] == '\0';
    StrlenAt(t[start..], end + 1 - start);
    var got, want := CStr(t[start..]), c[start..end + 1];
    assert |got| == |want|;
    forall k | 0 <= k < |got| ensures got[k] == want[k] {
      assert t[start + k] == s[start + k] == c[start + k];
    }
  }

  /**
   * `trim_whitespace`: returns where the trimmed string starts; the buffer
   * from there holds the trim of the original string. Only one character
   * may change: the terminator written just after the trimmed text.
   */
  method TrimWhitespace(buf: array<char>) returns (start: nat)
    requires '\0' in buf[..]
    modifies buf
    ensures start < buf.Length && '\0' in buf[start..]
    ensures CStr(buf[start..]) == Trimmed(CStr(old(buf[..])))
    ensures forall i :: 0 <= i < buf.Length && buf[i] != old(buf[i]) ==>
      buf[i] == '\0' && i == start + |Trimmed(CStr(old(buf[..])))|
  {
    ghost var s := buf[..];
    start := SkipSpaces(buf);
    if buf[start] == '\0' {
      TrimToNothing(s, start);
      return;
    }
    var len := StrlenFrom(buf, start);
    var end := SkipTrailing(buf, start, len);
    buf[end + 1] := '\0';
    assert buf[..] == s[end + 1 := '\0'];
    TrimCut(s, start, end);
  }
}
