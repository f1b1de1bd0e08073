/** The calculator's history: most recent entry first, at most fifty entries. */
module History {

  /** How many entries the history keeps. */
  const MaxEntries: nat := 50

  function Min(x: nat, y: nat): nat
  {
    if x <= y then x else y
  }

  /** The first n elements of s, or all of s when it is shorter. */
  function Take<T>(s: seq<T>, n: nat): (t: seq<T>)
    ensures |t| == Min(|s|, n)
    ensures forall i :: 0 <= i < |t| ==> t[i] == s[i]
  {
    if |s| <= n then s else s[..n]
  }

  /** The history after recording e: e in front, the previous entries after it in their
      order, and only the newest MaxEntries kept. */
  function PushCapped<T>(h: seq<T>, e: T): (r: seq<T>)
    ensures |r| == Min(|h| + 1, MaxEntries)
    ensures r[0] == e
    ensures forall i :: 1 <= i < |r| ==> r[i] == h[i - 1]
  {
    var inserted := [e] + h;
    if |inserted| > MaxEntries then inserted[..MaxEntries] else inserted
  }

  /** Recording into a history with room left drops nothing. */
  lemma PushCappedKeepsAll<T>(h: seq<T>, e: T)
    requires |h| < MaxEntries
    ensures PushCapped(h, e) == [e] + h
  {
  }

  /** Recording into a full history drops exactly its oldest entry. */
  lemma PushCappedDropsOldest<T>(h: seq<T>, e: T)
    requires |h| == MaxEntries
    ensures PushCapped(h, e) == [e] + h[..MaxEntries - 1]
  {
  }

  /** es reversed: the last element first. */
  function Reversed<T>(es: seq<T>): (r: seq<T>)
    ensures |r| == |es|
    ensures forall i :: 0 <= i < |es| ==> r[i] == es[|es| - 1 - i]
  {
    if es == [] then [] else Reversed(es[1..]) + [es[0]]
  }

  /** The history after recording es[0], es[1], ... in that order. */
  function PushAll<T>(h: seq<T>, es: seq<T>): seq<T>
    decreases |es|
  {
    if es == [] then h else PushAll(PushCapped(h, es[0]), es[1..])
  }

  /** Recording into a truncated history is the same as recording and then truncating. */
  lemma PushCappedOfTake<T>(s: seq<T>, e: T)
    ensures PushCapped(Take(s, MaxEntries), e) == Take([e] + s, MaxEntries)
  {
    var lhs, rhs := PushCapped(Take(s, MaxEntries), e), Take([e] + s, MaxEntries);
    assert |lhs| == |rhs|;
    forall i | 0 <= i < |lhs|
      ensures lhs[i] == rhs[i]
    {
    }
  }

  /** After recording a series of entries, the history lists the newest MaxEntries of
      them and of the earlier entries, most recent first. */
  lemma {:induction false} PushAllNewestFirst<T>(h: seq<T>, es: seq<T>)
    requires |h| <= MaxEntries
    ensures PushAll(h, es) == Take(Reversed(es) + h, MaxEntries)
    decreases |es|
  {
    if es == [] {
      assert Reversed(es) + h == h;
    } else {
      var h' := PushCapped(h, es[0]);
      PushAllNewestFirst(h', es[1..]);
      assert h == Take(h, MaxEntries);
      PushCappedOfTake(h, es[0]);
      assert h' == Take([es[0]] + h, MaxEntries);
      TakeOfAppendTake(Reversed(es[1..]), [es[0]] + h);
      assert Reversed(es) == Reversed(es[1..]) + [es[0]];
      assert Reversed(es[1..]) + ([es[0]] + h) == Reversed(es) + h;
    }
  }

  /** Truncating the tail first does not change the first n elements of a concatenation. */
  lemma TakeOfAppendTake<T>(a: seq<T>, b: seq<T>)
    ensures Take(a + Take(b, MaxEntries), MaxEntries) == Take(a + b, MaxEntries)
  {
    var lhs, rhs := Take(a + Take(b, MaxEntries), MaxEntries), Take(a + b, MaxEntries);
    assert |lhs| == |rhs|;
    forall i | 0 <= i < |lhs|
      ensures lhs[i] == rhs[i]
    {
      if i >= |a| {
        assert (a + Take(b, MaxEntries))[i] == Take(b, MaxEntries)[i - |a|];
      }
    }
  }
}
