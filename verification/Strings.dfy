/** Finding one string in another, as std::string::find does. */
module Strings {
  import opened Results

  predicate IsAt(s: string, needle: string, i: nat) {
    i + |needle| <= |s| && s[i..i + |needle|] == needle
  }

  predicate NotBefore(s: string, needle: string, from: nat, to: nat) {
    forall i :: from <= i < to ==> !IsAt(s, needle, i)
  }

  /** The first place of `needle` at `from` or later. */
  function Find(s: string, needle: string, from: nat): (r: Option<nat>)
    ensures r.Some? ==> from <= r.value && IsAt(s, needle, r.value) && NotBefore(s, needle, from, r.value)
    ensures r.None? ==> forall i :: i >= from ==> !IsAt(s, needle, i)
    decreases if from <= |s| then |s| + 1 - from else 0
  {
    if from > |s| then None
    else if IsAt(s, needle, from) then Some(from)
    else Find(s, needle, from + 1)
  }

  predicate Occurs(s: string, needle: string) {
    Find(s, needle, 0).Some?
  }

  lemma {:induction false} OccursAt(s: string, needle: string, i: nat)
    requires IsAt(s, needle, i)
    ensures Occurs(s, needle)
  {
  }

  lemma {:induction false} OccursInside(x: string, s: string, y: string, needle: string)
    requires Occurs(s, needle)
    ensures Occurs(x + s + y, needle)
  {
    var i := Find(s, needle, 0).value;
    assert (x + s + y)[|x| + i..|x| + i + |needle|] == s[i..i + |needle|];
    OccursAt(x + s + y, needle, |x| + i);
  }

  /** Needles found in a string are found at the same place in every longer one. */
  lemma {:induction false} FindInLonger(s: string, t: string, needle: string, from: nat)
    requires s <= t && Find(s, needle, from).Some?
    ensures Find(t, needle, from) == Find(s, needle, from)
  {
    var i := Find(s, needle, from).value;
    assert t[i..i + |needle|] == s[i..i + |needle|];
    assert IsAt(t, needle, i);
    forall k: nat | from <= k < i ensures !IsAt(t, needle, k) {
      assert !IsAt(s, needle, k);
      assert t[k..k + |needle|] == s[k..k + |needle|];
    }
  }

  // ----- white space

  predicate IsSpace(ch: char) {
    ch == ' ' || 9 <= ch as int <= 13
  }

  /** The place after the white space that starts at `from`. */
  function SpacesEnd(s: string, from: nat): (r: nat)
    requires from <= |s|
    ensures from <= r <= |s|
    ensures forall i :: from <= i < r ==> IsSpace(s[i])
    ensures r < |s| ==> !IsSpace(s[r])
    decreases |s| - from
  {
    if from < |s| && IsSpace(s[from]) then SpacesEnd(s, from + 1) else from
  }

  function StripEnd(s: string): (r: string)
    ensures r <= s
    ensures r != "" ==> !IsSpace(r[|r| - 1])
  {
    if s != "" && IsSpace(s[|s| - 1]) then StripEnd(s[..|s| - 1]) else s
  }

  function Strip(s: string): string {
    StripEnd(s[SpacesEnd(s, 0)..])
  }

  lemma {:induction false} StripEndStep(s: string, start: nat, end: nat)
    requires start < end <= |s| && IsSpace(s[end - 1])
    ensures StripEnd(s[start..end]) == StripEnd(s[start..end - 1])
  {
    assert s[start..end][..end - start - 1] == s[start..end - 1];
  }

  lemma {:induction false} StripEndDone(s: string, start: nat, end: nat)
    requires start <= end <= |s| && (start < end ==> !IsSpace(s[end - 1]))
    ensures StripEnd(s[start..end]) == s[start..end]
  {
  }

  /** `string_strip`. */
  method StringStrip(s: string) returns (r: string)
    ensures r == Strip(s)
  {
    var start, end := 0, |s|;
    while start < end && IsSpace(s[start])
      invariant 0 <= start <= end
      invariant SpacesEnd(s, 0) == SpacesEnd(s, start)
    {
      start := start + 1;
    }
    assert s[start..end] == s[start..];
    while end > start && IsSpace(s[end - 1])
      invariant start <= end <= |s|
      invariant StripEnd(s[start..end]) == StripEnd(s[start..])
    {
      StripEndStep(s, start, end);
      end := end - 1;
    }
    StripEndDone(s, start, end);
    r := s[start..end];
  }

  lemma {:induction false} StripEndInLonger(s: string, t: string)
    requires s <= t
    ensures StripEnd(s) <= StripEnd(t)
  {
    if |s| == |t| {
      assert s == t;
    } else if IsSpace(t[|t| - 1]) {
      StripEndInLonger(s, t[..|t| - 1]);
    }
  }

  lemma {:induction false} SpacesEndInLonger(s: string, t: string, from: nat)
    requires s <= t && from <= |s|
    ensures SpacesEnd(s, from) <= SpacesEnd(t, from)
    ensures SpacesEnd(s, from) < |s| ==> SpacesEnd(s, from) == SpacesEnd(t, from)
    decreases |s| - from
  {
    if from < |s| && IsSpace(s[from]) {
      SpacesEndInLonger(s, t, from + 1);
    }
  }

  lemma {:induction false} StripInLonger(s: string, t: string)
    requires s <= t
    ensures Strip(s) <= Strip(t)
  {
    SpacesEndInLonger(s, t, 0);
    var i := SpacesEnd(s, 0);
    if i < |s| {
      StripEndInLonger(s[i..], t[i..]);
    }
  }

  // ----- partial stops

  /** The start, at `from` or later, of the longest proper tail of `s` with which `stop` begins. */
  function TailFrom(s: string, stop: string, from: nat): (r: Option<nat>)
    ensures r.Some? ==> from <= r.value < |s| && s[r.value..] <= stop
    ensures r.Some? ==> forall i :: from <= i < r.value ==> !(s[i..] <= stop)
    ensures r.None? ==> forall i :: from <= i < |s| ==> !(s[i..] <= stop)
    decreases if from <= |s| then |s| - from else 0
  {
    if from >= |s| then None
    else if s[from..] <= stop then Some(from)
    else TailFrom(s, stop, from + 1)
  }

  function PartialStop(s: string, stop: string): Option<nat> {
    TailFrom(s, stop, 0)
  }

  predicate EndsWith(s: string, suffix: string) {
    |s| >= |suffix| && s[|s| - |suffix|..] == suffix
  }

  lemma {:induction false} TailIsPartialStop(s: string, stop: string, i: nat)
    requires i < |s| && s[i..] <= stop
    ensures EndsWith(s, stop[..|s| - i])
    ensures stop[|s| - i - 1] == s[|s| - 1]
  {
    assert s[i..] == stop[..|s| - i];
    assert s[i..][|s| - i - 1] == s[|s| - 1];
  }

  /** `string_find_partial_stop`. */
  method FindPartialStop(s: string, stop: string) returns (r: Option<nat>)
    ensures r == PartialStop(s, stop)
  {
    if s != "" && stop != "" {
      var lastChar := s[|s| - 1];
      var n := |stop|;
      while n > 0
        invariant 0 <= n <= |stop|
        invariant forall i :: 0 <= i < |s| && s[i..] <= stop ==> |s| - i <= n
      {
        if stop[n - 1] == lastChar {
          var currentPartial := stop[..n];
          if EndsWith(s, currentPartial) {
            assert s[|s| - n..] <= stop;
            return Some(|s| - n);
          }
        }
        forall i | 0 <= i < |s| && s[i..] <= stop ensures |s| - i <= n - 1 {
          TailIsPartialStop(s, stop, i);
        }
        n := n - 1;
      }
    }
    r := None;
  }
}
