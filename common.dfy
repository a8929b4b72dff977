/** Small value types shared by every module of the model. */
module Common {

  datatype Option<T> = None | Some(value: T)

  /** A Python float that is either finite or `float("inf")`. */
  datatype Cost = Fin(r: real) | Inf {

    /** Python `+` on these values: infinity absorbs every finite summand. */
    function Plus(other: Cost): (c: Cost)
      ensures c.Fin? <==> this.Fin? && other.Fin?
    {
      if this.Fin? && other.Fin? then Fin(this.r + other.r) else Inf
    }

    /** Python `<` on these values: nothing is below infinity's left side. */
    predicate Below(other: Cost) {
      match this
      case Inf => false
      case Fin(x) => other.Inf? || x < other.r
    }
  }

  function Min(a: real, b: real): (m: real)
    ensures m <= a && m <= b && (m == a || m == b)
  {
    if a <= b then a else b
  }

  function Max(a: real, b: real): (m: real)
    ensures m >= a && m >= b && (m == a || m == b)
  {
    if a >= b then a else b
  }

  /** `Below` is a strict order with `Inf` as its top element. */
  lemma BelowIsStrictOrder(a: Cost, b: Cost, c: Cost)
    ensures !a.Below(a)
    ensures a.Below(b) ==> !b.Below(a)
    ensures a.Below(b) && b.Below(c) ==> a.Below(c)
    ensures !Inf.Below(a) && (a.Fin? <==> a.Below(Inf))
    ensures !a.Below(b) && !b.Below(a) <==> a == b
  {
  }

  /** `costs[k]` is finite, strictly below every cost before it and not above any cost after it. */
  ghost predicate IsFirstMinimum(costs: seq<Cost>, k: int) {
    && 0 <= k < |costs| && costs[k].Fin?
    && (forall j :: 0 <= j < k ==> costs[k].Below(costs[j]))
    && (forall j :: k < j < |costs| ==> !costs[j].Below(costs[k]))
  }

  /** Index of the first finite cost strictly below every cost before it and not above any after it. */
  function FirstMinIndex(costs: seq<Cost>): (k: Option<nat>)
    ensures k.None? <==> forall j :: 0 <= j < |costs| ==> costs[j].Inf?
    ensures k.Some? ==> k.value < |costs| && costs[k.value].Fin?
    ensures k.Some? ==> forall j :: 0 <= j < k.value ==> costs[k.value].Below(costs[j])
    ensures k.Some? ==> forall j :: k.value < j < |costs| ==> !costs[j].Below(costs[k.value])
  {
    if costs == [] then None
    else
      var init := costs[..|costs| - 1];
      var prev := FirstMinIndex(init);
      var best := if prev.None? then Inf else costs[prev.value];
      if costs[|costs| - 1].Below(best) then Some(|costs| - 1) else prev
  }

  /** One more cost replaces the running minimum only when it is strictly below it. */
  lemma FirstMinIndexStep(costs: seq<Cost>, c: Cost)
    ensures var prev := FirstMinIndex(costs);
            var best := if prev.None? then Inf else costs[prev.value];
            FirstMinIndex(costs + [c]) == if c.Below(best) then Some(|costs|) else prev
  {
    var xs := costs + [c];
    assert xs[..|xs| - 1] == costs;
    var prev := FirstMinIndex(costs);
    if prev.Some? {
      assert xs[prev.value] == costs[prev.value];
    }
    assert xs[|xs| - 1] == c;
  }

  /** Sequence concatenation is associative; stated once so that long proofs need not rediscover it. */
  lemma ConcatAssoc<T>(a: seq<T>, b: seq<T>, c: seq<T>)
    ensures a + b + c == a + (b + c)
  {
  }
}
