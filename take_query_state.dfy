/**
  The take-narrowing step of the sharding plan builder: a query state that
  holds the `Take` count of the query model and narrows it when a smaller
  `Take(n)` is applied. The count is validated as non-negative before it is
  stored, and the query model's `Take` is kept equal to it.
*/
module TakeQueryState {
  import opened Wrappers

  /** The ArgumentException raised for a negative take count. */
  datatype TakeError = NegativeTakeCount

  /** CheckInputCount: a negative take count is rejected, every other count is accepted. */
  function CheckInputCount(count: int): (r: Outcome<TakeError>)
    ensures r.Fail? <==> count < 0
    ensures r.Fail? ==> r.error == NegativeTakeCount
  {
    if count < 0 then Fail(NegativeTakeCount) else Pass
  }

  /** The count after applying `Take(n)` to a state whose count is `current`: a smaller
      count goes through the checked setter, any other count is ignored. */
  function Narrow(current: int, n: int): Result<int, TakeError> {
    if n < current then
      if CheckInputCount(n).Fail? then Err(NegativeTakeCount) else Ok(n)
    else Ok(current)
  }

  /** Applying the takes `ns` in order, starting from the count `current`. */
  function ApplyTakes(current: int, ns: seq<int>): Result<int, TakeError>
    decreases |ns|
  {
    if ns == [] then Ok(current)
    else
      match Narrow(current, ns[0])
      case Err(e) => Err(e)
      case Ok(c) => ApplyTakes(c, ns[1..])
  }

  /** One Take on a valid state: it fails exactly for a negative count, and otherwise
      yields the smaller of the two counts. */
  lemma NarrowIsMin(current: int, n: int)
    requires current >= 0
    ensures Narrow(current, n).Err? <==> n < 0
    ensures Narrow(current, n).Ok? ==>
      Narrow(current, n).value == (if n < current then n else current)
      && Narrow(current, n).value <= current
  {
  }

  /** Over any sequence of takes on a valid state: the sequence is accepted exactly when
      no count is negative, and the final count is the minimum of the initial count and
      every count seen, so the count never grows. */
  lemma {:induction false} ApplyTakesIsMinimum(current: int, ns: seq<int>)
    requires current >= 0
    ensures ApplyTakes(current, ns).Ok? <==> (forall i :: 0 <= i < |ns| ==> ns[i] >= 0)
    ensures ApplyTakes(current, ns).Ok? ==>
      var c := ApplyTakes(current, ns).value;
      && 0 <= c <= current
      && (forall i :: 0 <= i < |ns| ==> c <= ns[i])
      && (c == current || exists i :: 0 <= i < |ns| && c == ns[i])
    decreases |ns|
  {
    if ns != [] {
      NarrowIsMin(current, ns[0]);
      if ns[0] >= 0 {
        var c0 := Narrow(current, ns[0]).value;
        ApplyTakesIsMinimum(c0, ns[1..]);
        if ApplyTakes(current, ns).Ok? {
          var c := ApplyTakes(current, ns).value;
          assert c == ApplyTakes(c0, ns[1..]).value;
          forall i | 0 <= i < |ns| ensures c <= ns[i] {
            if i > 0 {
              assert ns[i] == ns[1..][i - 1];
            }
          }
          if c != current {
            if c == c0 {
              assert c == ns[0];
            } else {
              var j :| 0 <= j < |ns[1..]| && c == ns[1..][j];
              assert c == ns[j + 1];
            }
          }
        }
      } else {
        assert !(forall i :: 0 <= i < |ns| ==> ns[i] >= 0) by {
          assert ns[0] < 0;
        }
      }
    }
  }

  /** Take(5) followed by Take(3) and Take(10) leaves the count at 3. */
  lemma TakesFiveThreeTen()
    ensures ApplyTakes(5, [3, 10]) == Ok(3)
  {
  }

  /** The query model the sharding states build; only its Take is modelled. */
  class ShardingQueryModel {
    var take: Option<int>

    constructor ()
      ensures take == None
    {
      take := None;
    }
  }

  class ShardingTakeQueryState {
    const queryModel: ShardingQueryModel
    var count: int

    /** The count is non-negative and the query model's Take equals it. */
    ghost predicate Valid()
      reads this, queryModel
    {
      count >= 0 && queryModel.take == Some(count)
    }

    /** The constructor: it stores the count through the checked setter, so a negative
        count throws before anything is assigned. */
    static method Create(queryModel: ShardingQueryModel, count: int) returns (r: Result<ShardingTakeQueryState, TakeError>)
      modifies queryModel
      ensures r.Err? <==> count < 0
      ensures r.Err? ==> r.error == NegativeTakeCount && unchanged(queryModel)
      ensures r.Ok? ==>
        && fresh(r.value) && r.value.queryModel == queryModel
        && r.value.count == count && queryModel.take == Some(count) && r.value.Valid()
    {
      var check := CheckInputCount(count);
      if check.Fail? {
        return Err(check.error);
      }
      var state := new ShardingTakeQueryState.Init(queryModel, count);
      r := Ok(state);
    }

    constructor Init(queryModel: ShardingQueryModel, count: int)
      requires count >= 0
      modifies queryModel
      ensures this.queryModel == queryModel && this.count == count
      ensures queryModel.take == Some(count)
    {
      this.queryModel := queryModel;
      this.count := count;
      new;
      queryModel.take := Some(count);
    }

    /** The Count setter: the check runs first, so a rejected count leaves both the count
        and the query model's Take as they were. */
    method SetCount(value: int) returns (r: Outcome<TakeError>)
      modifies this, queryModel
      ensures r == CheckInputCount(value)
      ensures r.Pass? ==> count == value && queryModel.take == Some(value)
      ensures r.Fail? ==> count == old(count) && queryModel.take == old(queryModel.take)
    {
      r := CheckInputCount(value);
      if r.Fail? {
        return;
      }
      count := value;
      queryModel.take := Some(count);
    }

    /** Accept(TakeExpression): narrow to a smaller count, ignore any other, and return
        this same state. A negative count is always smaller, so it always throws. */
    method Accept(takeCount: int) returns (r: Result<ShardingTakeQueryState, TakeError>)
      requires Valid()
      modifies this, queryModel
      ensures Valid()
      ensures r.Err? <==> Narrow(old(count), takeCount).Err?
      ensures r.Err? <==> takeCount < 0
      ensures r.Ok? ==> r.value == this && count == Narrow(old(count), takeCount).value
      ensures r.Err? ==> count == old(count)
      ensures takeCount >= old(count) ==> count == old(count) && queryModel.take == old(queryModel.take)
    {
      if takeCount < count {
        var outcome := SetCount(takeCount);
        if outcome.Fail? {
          return Err(outcome.error);
        }
      }
      r := Ok(this);
    }
  }
}
