/** Movesets: the ordered push/pop operations a board applies for one PTN
    token, and the sequence operations the source uses on them. */
module Moves {
  import opened Wrappers
  import opened Notation

  datatype Action = Push | Pop

  /** One element of a moveset. A `Step` is one board operation at square
      (x, y); `count` is absent on a placement and `flatten` is true only on
      the drop that smashes a wall. An `ErrorReport` is the element
      `{ errors }` that stands alone in the moveset of an invalid token. */
  datatype Move =
    | Step(action: Action, count: Option<int>, x: int, y: int, flatten: bool)
    | ErrorReport(errors: seq<string>)

  function Opposite(a: Action): (b: Action)
    ensures b != a
  {
    if a == Push then Pop else Push
  }

  /** The action of a movement's lift: a pop, and a push in the reverse
      moveset. */
  function Lift(reverse: bool): Action { if reverse then Push else Pop }

  /** The action of a drop or a placement: a push, and a pop in the reverse
      moveset. */
  function Drop(reverse: bool): Action { if reverse then Pop else Push }

  /** The same operation with push and pop exchanged; an error report is
      left as it is. */
  function Inverted(mv: Move): (r: Move)
    ensures r.Step? <==> mv.Step?
    ensures r.Step? ==> r.action != mv.action && r.count == mv.count &&
                        r.x == mv.x && r.y == mv.y && r.flatten == mv.flatten
    ensures r.ErrorReport? ==> r == mv
  {
    match mv
    case Step(a, n, x, y, f) => Step(Opposite(a), n, x, y, f)
    case ErrorReport(_) => mv
  }

  /** The total number of pieces the steps of `ms` name. */
  function CountTotal(ms: seq<Move>): int
  {
    if |ms| == 0 then 0
    else
      var last := ms[|ms| - 1];
      CountTotal(ms[..|ms| - 1]) + (if last.Step? && last.count.Some? then last.count.value else 0)
  }

  /** Steps carrying the counts `cs`, one each, name `Sum(cs)` pieces. */
  lemma {:induction false} CountTotalOfCounts(ms: seq<Move>, cs: seq<int>)
    requires |ms| == |cs|
    requires forall i | 0 <= i < |ms| :: ms[i].Step? && ms[i].count == Some(cs[i])
    ensures CountTotal(ms) == Sum(cs)
  {
    if |ms| > 0 {
      CountTotalOfCounts(ms[..|ms| - 1], cs[..|cs| - 1]);
    }
  }

  /** `s` in the opposite order. */
  function Reversed<T>(s: seq<T>): (r: seq<T>)
    ensures |r| == |s|
  {
    if |s| == 0 then [] else [s[|s| - 1]] + Reversed(s[..|s| - 1])
  }

  lemma {:induction false} ReversedAt<T>(s: seq<T>, k: nat)
    requires k < |s|
    ensures Reversed(s)[k] == s[|s| - 1 - k]
  {
    if k > 0 {
      ReversedAt(s[..|s| - 1], k - 1);
    }
  }

  /** Reversing the element-wise inversion of `f` runs `f` backwards with
      every step inverted. */
  lemma ReversedOfInverted(r: seq<Move>, f: seq<Move>)
    requires |r| == |f| && forall i | 0 <= i < |f| :: r[i] == Inverted(f[i])
    ensures |Reversed(r)| == |f|
    ensures forall k | 0 <= k < |f| :: Reversed(r)[k] == Inverted(f[|f| - 1 - k])
  {
    forall k | 0 <= k < |f|
      ensures Reversed(r)[k] == Inverted(f[|f| - 1 - k])
    {
      ReversedAt(r, k);
    }
  }

  /** `Array.prototype.reverse`: reverses `a` in place. */
  method ReverseInPlace<T>(a: array<T>)
    modifies a
    ensures a[..] == Reversed(old(a[..]))
  {
    ghost var before := a[..];
    var lo, hi := 0, a.Length;
    while lo + 1 < hi
      invariant 0 <= lo <= hi <= a.Length && lo + hi == a.Length
      invariant forall k | 0 <= k < lo :: a[k] == before[a.Length - 1 - k]
      invariant forall k | hi <= k < a.Length :: a[k] == before[a.Length - 1 - k]
      invariant forall k | lo <= k < hi :: a[k] == before[k]
    {
      a[lo], a[hi - 1] := a[hi - 1], a[lo];
      lo, hi := lo + 1, hi - 1;
    }
    forall k | 0 <= k < a.Length
      ensures a[..][k] == Reversed(before)[k]
    {
      ReversedAt(before, k);
    }
  }
}
