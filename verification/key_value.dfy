/**
 The replicated key/value state machine: a deterministic function of the command
 sequence it is fed. Values are Java `int`s, so additions wrap at 32 bits.
 */
module KeyValue {
  datatype Action = Set | Add | Subtract
  datatype Command = Command(key: string, action: Action, value: int)

  /** What applying a command yields: the new value, or the unknown-key exception. */
  datatype Outcome = Value(value: int) | UnknownKey

  type Values = map<string, int>

  /** Two's complement reduction to the range of a Java `int`. */
  function Wrap32(x: int): (r: int)
    ensures -0x8000_0000 <= r < 0x8000_0000
    ensures -0x8000_0000 <= x < 0x8000_0000 ==> r == x
    ensures (x - r) % 0x1_0000_0000 == 0
  {
    (x + 0x8000_0000) % 0x1_0000_0000 - 0x8000_0000
  }

  function Updated(values: Values, key: string, delta: int): (Values, Outcome) {
    if key !in values then (values, UnknownKey)
    else
      var v := Wrap32(values[key] + delta);
      (values[key := v], Value(v))
  }

  function Applied(values: Values, c: Command): (Values, Outcome) {
    match c.action
    case Set => (values[c.key := c.value], Value(c.value))
    case Add => Updated(values, c.key, c.value)
    case Subtract => Updated(values, c.key, Wrap32(-c.value))
  }

  /** A Java `int` sum: in range, and the number meant up to a multiple of 2^32. */
  ghost predicate WrappedSum(stored: int, meant: int) {
    -0x8000_0000 <= stored <= 0x7FFF_FFFF && (stored - meant) % 0x1_0000_0000 == 0
  }

  /**
   What a command does to a map and what it yields: SET stores its value, ADD and SUBTRACT change a value that is there by
   theirs with the wrap-around of an `int`, or fail on a key that is not there; no other key changes.
   */
  ghost predicate Carries(before: Values, c: Command, after: Values, outcome: Outcome) {
    && (forall k :: k != c.key ==> (k in after <==> k in before) && (k in before ==> after[k] == before[k]))
    && if c.action == Set then c.key in after && after[c.key] == c.value && outcome == Value(c.value)
       else if c.key !in before then after == before && outcome == UnknownKey
       else
         && c.key in after && outcome == Value(after[c.key])
         && (c.action == Add ==> WrappedSum(after[c.key], before[c.key] + c.value))
         && (c.action == Subtract ==> WrappedSum(after[c.key], before[c.key] - c.value))
  }

  ghost predicate LeadsTo(before: Values, c: Command, after: Values) {
    exists outcome :: Carries(before, c, after, outcome)
  }

  lemma AppliedCarries(values: Values, c: Command)
    ensures Carries(values, c, Applied(values, c).0, Applied(values, c).1)
  {
    hide Wrap32, WrappedSum;
    if c.key in values {
      SumWraps(values[c.key] + c.value);
      DifferenceWraps(values[c.key], c.value);
    }
  }

  lemma SumWraps(x: int)
    ensures WrappedSum(Wrap32(x), x)
  {
  }

  /** Negating first, as the source does, wraps once more and changes nothing. */
  lemma DifferenceWraps(x: int, y: int)
    ensures WrappedSum(Wrap32(x + Wrap32(-y)), x - y)
  {
    var d := Wrap32(-y);
    var s := Wrap32(x + d);
    SumWraps(-y);
    SumWraps(x + d);
    assert s - (x - y) == (s - (x + d)) + (d + y);
  }

  /** A command has one meaning: nothing else carries it. */
  lemma CarriesDetermines(before: Values, c: Command, a: Values, x: Outcome, b: Values, y: Outcome)
    requires Carries(before, c, a, x) && Carries(before, c, b, y)
    ensures a == b && x == y
  {
    if c.key in a && c.key in b && c.action != Set && c.key in before {
      SameWrap(a[c.key], b[c.key], if c.action == Add then before[c.key] + c.value else before[c.key] - c.value);
    }
    assert a.Keys == b.Keys;
  }

  lemma SameWrap(x: int, y: int, meant: int)
    requires WrappedSum(x, meant) && WrappedSum(y, meant)
    ensures x == y
  {
  }

  class StateMachine {
    var values: Values

    constructor ()
      ensures values == map[]
    {
      values := map[];
    }

    method Apply(c: Command) returns (r: Outcome)
      modifies this
      ensures (values, r) == Applied(old(values), c) && Carries(old(values), c, values, r)
    {
      AppliedCarries(values, c);
      match c.action {
        case Set =>
          values := values[c.key := c.value];
          r := Value(c.value);
        case Add =>
          r := Update(c.key, c.value);
        case Subtract =>
          r := Update(c.key, Wrap32(-c.value));
      }
    }

    method Update(key: string, delta: int) returns (r: Outcome)
      modifies this
      ensures (values, r) == Updated(old(values), key, delta)
    {
      if key !in values {
        r := UnknownKey;
      } else {
        var updated := Wrap32(values[key] + delta);
        values := values[key := updated];
        r := Value(updated);
      }
    }
  }

  /** A command changes at most its own key, and a failed command changes nothing. */
  lemma AppliedTouchesOneKey(values: Values, c: Command)
    ensures var (after, outcome) := Applied(values, c);
            && after - {c.key} == values - {c.key}
            && (outcome == UnknownKey <==> c.action != Set && c.key !in values)
            && (outcome == UnknownKey ==> after == values)
            && (outcome.Value? ==> c.key in after && after[c.key] == outcome.value)
  {
  }
}
