/** `setqueue` (src/utils.py): a FIFO queue that ignores items it already
    holds and can be bounded. A deque holds the order and a set mirrors its
    elements for the membership test. */
module SetQueue {
  import opened Wrappers
  import opened Seqs

  /** What `unique_set` holds: a real set, or the empty dict `{}` that the
      constructor leaves behind when it is given no values. Membership in the
      dict is always false; it has no `add` and no `remove`. */
  datatype Members<T> = PySet(elems: set<T>) | EmptyDict

  /** The exceptions the methods can raise after changing the state. */
  datatype PyError = AttributeError | KeyError

  /** The constructor's `values`: `None`, a scalar (int, float or str), or
      any other iterable. */
  datatype InitArg<T> = NoneArg | Scalar(x: T) | Iterable(xs: seq<T>)

  datatype QueueState<T> = QueueState(queue: seq<T>, members: Members<T>, maxlen: Option<int>)

  function Elements<T>(q: seq<T>): set<T> {
    set x | x in q
  }

  /** The invariant the class keeps: the set mirrors the deque and the deque
      holds no item twice. */
  predicate Valid<T>(s: QueueState<T>) {
    s.members.PySet? && s.members.elems == Elements(s.queue) && Distinct(s.queue)
  }

  /** `self.maxlen and ...`: `None` and 0 mean unbounded. */
  predicate Bounded<T>(s: QueueState<T>) {
    s.maxlen.Some? && s.maxlen.value != 0
  }

  function Init<T>(values: InitArg<T>, maxlen: Option<int>): (r: QueueState<T>)
    ensures r.maxlen == maxlen
    ensures values.Scalar? ==> r.queue == [values.x] && Valid(r)
    ensures values.Iterable? && |values.xs| > 0 ==> r.queue == values.xs && (Valid(r) <==> Distinct(values.xs))
    ensures values.NoneArg? || (values.Iterable? && |values.xs| == 0) ==> r.queue == [] && r.members == EmptyDict
  {
    match values
    case Scalar(x) =>
      assert Elements([x]) == {x};
      QueueState([x], PySet({x}), maxlen)
    case Iterable(xs) =>
      if |xs| > 0 then QueueState(xs, PySet(Elements(xs)), maxlen)
      else QueueState([], EmptyDict, maxlen)
    case NoneArg => QueueState([], EmptyDict, maxlen)
  }

  /** `pop`: the new state and either the returned item (`None` on an empty
      deque) or the exception raised after the deque was popped. */
  function PopState<T>(s: QueueState<T>): (r: (QueueState<T>, Result<Option<T>, PyError>))
    ensures r.1 == Ok(None) <==> |s.queue| == 0
    ensures |s.queue| == 0 ==> r.0 == s
    ensures |s.queue| > 0 ==> r.0.queue == s.queue[1..] && r.0.maxlen == s.maxlen
    ensures |s.queue| > 0 && r.1.Ok? ==> r.1 == Ok(Some(s.queue[0]))
  {
    if |s.queue| == 0 then (s, Ok(None))
    else
      var item := s.queue[0];
      var popped := s.(queue := s.queue[1..]);
      match s.members
      case EmptyDict => (popped, Err(AttributeError))
      case PySet(e) =>
        if item in e then (popped.(members := PySet(e - {item})), Ok(Some(item)))
        else (popped, Err(KeyError))
  }

  /** The bound check at the end of `put`. */
  function TrimState<T>(s: QueueState<T>): (r: (QueueState<T>, Option<PyError>))
    ensures r.0.maxlen == s.maxlen
    ensures Bounded(s) && |s.queue| > 0 && |s.queue| > s.maxlen.value ==> r.0.queue == s.queue[1..]
    ensures !(Bounded(s) && |s.queue| > s.maxlen.value) ==> r == (s, None)
    ensures Bounded(s) && s.maxlen.value > 0 && |s.queue| <= s.maxlen.value + 1 ==> |r.0.queue| <= s.maxlen.value
    ensures Valid(s) ==> Valid(r.0) && r.1 == None
  {
    if Bounded(s) && |s.queue| > s.maxlen.value then
      var (s', r) := PopState(s);
      assert Valid(s) ==> Valid(s') && r.Ok? by {
        if Valid(s) && |s.queue| > 0 {
          PopFront(s);
        }
      }
      (s', if r.Err? then Some(r.error) else None)
    else (s, None)
  }

  /** `put`: the new state and the exception raised, if any. */
  function PutState<T>(s: QueueState<T>, item: T): (r: (QueueState<T>, Option<PyError>))
    ensures r.0.maxlen == s.maxlen
    ensures |r.0.queue| <= |s.queue| + 1
    ensures s.members.EmptyDict? ==> r == (s.(queue := s.queue + [item]), Some(AttributeError))
  {
    if s.members.PySet? && item in s.members.elems then TrimState(s)
    else
      var appended := s.(queue := s.queue + [item]);
      match s.members
      case EmptyDict => (appended, Some(AttributeError))
      case PySet(e) => TrimState(appended.(members := PySet(e + {item})))
  }

  class SetQueue<T(==)> {
    var queue: seq<T>
    var members: Members<T>
    var maxlen: Option<int>

    function State(): QueueState<T>
      reads this
    {
      QueueState(queue, members, maxlen)
    }

    constructor (values: InitArg<T>, maxlen: Option<int>)
      ensures State() == Init(values, maxlen)
    {
      match values {
        case Scalar(x) =>
          queue := [x];
          members := PySet({x});
        case Iterable(xs) =>
          if |xs| > 0 {
            queue := xs;
            members := PySet(Elements(xs));
          } else {
            queue := [];
            members := EmptyDict;
          }
        case NoneArg =>
          queue := [];
          members := EmptyDict;
      }
      this.maxlen := maxlen;
    }

    /** `__len__`; under the invariant it is also the number of distinct items. */
    function Len(): (n: nat)
      reads this
      ensures n == |State().queue|
      ensures Valid(State()) ==> n == |State().members.elems|
    {
      if Distinct(queue) then DistinctElements(queue); |queue| else |queue|
    }

    method Pop() returns (r: Result<Option<T>, PyError>)
      modifies this
      ensures (State(), r) == PopState(old(State()))
    {
      if |queue| == 0 {
        return Ok(None);
      }
      var item := queue[0];
      queue := queue[1..];
      if members.EmptyDict? {
        return Err(AttributeError);
      }
      if item !in members.elems {
        return Err(KeyError);
      }
      members := PySet(members.elems - {item});
      return Ok(Some(item));
    }

    method Put(item: T) returns (err: Option<PyError>)
      modifies this
      ensures (State(), err) == PutState(old(State()), item)
    {
      if !(members.PySet? && item in members.elems) {
        queue := queue + [item];
        if members.EmptyDict? {
          return Some(AttributeError);
        }
        members := PySet(members.elems + {item});
      }
      err := None;
      if maxlen.Some? && maxlen.value != 0 && Len() > maxlen.value {
        var r := Pop();
        if r.Err? {
          err := Some(r.error);
        }
      }
    }

    /** `self + other`: the effect of `put`, and the same object back. */
    method Add(other: T) returns (self: SetQueue<T>, err: Option<PyError>)
      modifies this
      ensures self == this
      ensures (State(), err) == PutState(old(State()), other)
    {
      err := Put(other);
      self := this;
    }
  }

  lemma {:induction false} DistinctElements<T>(q: seq<T>)
    requires Distinct(q)
    ensures |Elements(q)| == |q|
  {
    if |q| > 0 {
      var rest := q[1..];
      DistinctElements(rest);
      assert Elements(q) == {q[0]} + Elements(rest);
      assert q[0] !in Elements(rest) by {
        assert forall j :: 0 <= j < |rest| ==> rest[j] == q[j + 1] && q[j + 1] != q[0];
      }
    }
  }

  /** Popping a non-empty valid queue returns its front item, removes it from
      both the deque and the set, and keeps the invariant. */
  lemma PopFront<T>(s: QueueState<T>)
    requires Valid(s) && |s.queue| > 0
    ensures var (s', r) := PopState(s);
      && r == Ok(Some(s.queue[0]))
      && s'.queue == s.queue[1..]
      && s'.members == PySet(s.members.elems - {s.queue[0]})
      && s'.maxlen == s.maxlen
      && Valid(s')
  {
    var q := s.queue;
    assert q[0] in Elements(q);
    assert Elements(q[1..]) == Elements(q) - {q[0]} by {
      forall x
        ensures x in Elements(q[1..]) <==> x in Elements(q) && x != q[0]
      {
        if x in q[1..] {
          var j :| 0 <= j < |q[1..]| && q[1..][j] == x;
          assert q[j + 1] == x;
        }
        if x in q && x != q[0] {
          var j :| 0 <= j < |q| && q[j] == x;
          assert q[1..][j - 1] == x;
        }
      }
    }
  }

  /** Popping an empty queue returns `None` and changes nothing. */
  lemma PopEmpty<T>(s: QueueState<T>)
    requires |s.queue| == 0
    ensures PopState(s) == (s, Ok(None))
  {
  }

  lemma AppendFresh<T>(q: seq<T>, item: T)
    requires Distinct(q) && item !in q
    ensures Distinct(q + [item])
    ensures Elements(q + [item]) == Elements(q) + {item}
  {
    var r := q + [item];
    forall i, j | 0 <= i < j < |r|
      ensures r[i] != r[j]
    {
      if j == |q| {
        assert r[i] == q[i];
      }
    }
  }

  /** `put` keeps the invariant and, on a valid queue, raises nothing. */
  lemma PutKeepsValid<T>(s: QueueState<T>, item: T)
    requires Valid(s)
    ensures Valid(PutState(s, item).0)
    ensures PutState(s, item).1 == None
    ensures PutState(s, item).0.maxlen == s.maxlen
  {
    var t := if item in s.members.elems then s
             else s.(queue := s.queue + [item], members := PySet(s.members.elems + {item}));
    if item !in s.members.elems {
      AppendFresh(s.queue, item);
    }
    assert Valid(t);
    if Bounded(t) && |t.queue| > t.maxlen.value {
      PopFront(t);
    }
  }

  /** A new item goes to the back and into the set; without trimming that
      is the whole change. */
  lemma PutFresh<T>(s: QueueState<T>, item: T)
    requires Valid(s) && item !in s.queue
    requires !Bounded(s) || |s.queue| + 1 <= s.maxlen.value
    ensures PutState(s, item) == (s.(queue := s.queue + [item], members := PySet(s.members.elems + {item})), None)
  {
  }

  /** An item already held leaves the deque as it is, apart from trimming. */
  lemma PutPresent<T>(s: QueueState<T>, item: T)
    requires Valid(s) && item in s.queue
    ensures PutState(s, item) == TrimState(s)
    ensures !Bounded(s) || |s.queue| <= s.maxlen.value ==> PutState(s, item) == (s, None)
  {
  }

  /** A bound that held before `put` holds after it: at most one item comes
      in and, when the bound is exceeded, the oldest one goes out. */
  lemma PutKeepsBound<T>(s: QueueState<T>, item: T)
    requires Valid(s) && Bounded(s) && |s.queue| <= s.maxlen.value
    ensures |PutState(s, item).0.queue| <= s.maxlen.value
  {
    if item !in s.members.elems {
      var t := s.(queue := s.queue + [item], members := PySet(s.members.elems + {item}));
      if |t.queue| > t.maxlen.value {
        assert |PopState(t).0.queue| == |t.queue| - 1;
      }
    }
  }

  /** Putting the same item twice has the effect of putting it once. */
  lemma PutIdempotent<T>(s: QueueState<T>, item: T)
    requires Valid(s) && !Bounded(s)
    ensures PutState(PutState(s, item).0, item) == PutState(s, item)
  {
  }

  /** The constructor's cases. A scalar gives a one-item queue, a non-empty
      iterable gives its items in order (valid exactly when they are
      distinct), and anything falsy gives an empty deque with a dict. */
  lemma InitCases<T>(values: InitArg<T>, maxlen: Option<int>)
    ensures values.Scalar? ==> Init(values, maxlen) == QueueState([values.x], PySet({values.x}), maxlen)
    ensures values.Scalar? ==> Valid(Init(values, maxlen))
    ensures values.Iterable? && |values.xs| > 0 ==>
      Init(values, maxlen).queue == values.xs
      && (Valid(Init(values, maxlen)) <==> Distinct(values.xs))
    ensures values.NoneArg? || (values.Iterable? && |values.xs| == 0) ==>
      Init(values, maxlen) == QueueState([], EmptyDict, maxlen)
  {
    if values.Scalar? {
      assert Elements([values.x]) == {values.x};
    }
  }

  /** An empty constructor leaves a dict: the first `put` appends and then
      raises, and the `pop` after it pops and raises again. */
  lemma EmptyThenPut<T>(item: T, maxlen: Option<int>)
    ensures var s := PutState(Init(NoneArg, maxlen), item);
      && s == (QueueState([item], EmptyDict, maxlen), Some(AttributeError))
      && PopState(s.0) == (QueueState([], EmptyDict, maxlen), Err(AttributeError))
  {
    var s0: QueueState<T> := Init(NoneArg, maxlen);
    assert s0.queue + [item] == [item];
    assert [item][1..] == [];
  }

  /** A constructor given a repeated item raises on the second `pop`. */
  lemma DuplicateInitThenPop<T>(x: T, maxlen: Option<int>)
    ensures var s := Init(Iterable([x, x]), maxlen);
      var (s1, r1) := PopState(s);
      && r1 == Ok(Some(x))
      && PopState(s1) == (QueueState([], PySet({}), maxlen), Err(KeyError))
  {
    assert Elements([x, x]) == {x};
    assert [x, x][1..] == [x] && [x][1..] == [];
    assert {x} - {x} == {};
  }
}
