/** Deferred calls: two parallel NULL-terminated arrays in the context, one of
    functions and one of arguments, run from the front and shifted in place. */
module DeferredQueue {

  // Functions and arguments are pointers; 0 is NULL.
  type Pointer = nat

  datatype Call = Call(func: Pointer, arg: Pointer)

  /** What a run does with the queue, given how each call would end: the leading
      calls that succeed are removed, the first that fails stops the run. */
  function Completed(pending: seq<Call>, ret: (nat, Call) -> int, i: nat): (k: nat)
    ensures k <= |pending|
    ensures k < |pending| ==> ret(i + k, pending[k]) != 0
    ensures forall j :: 0 <= j < k ==> ret(i + j, pending[j]) == 0
  {
    if pending == [] || ret(i, pending[0]) != 0 then 0
    else
      var k := Completed(pending[1..], ret, i + 1);
      assert forall j :: 1 <= j < k + 1 ==> pending[j] == pending[1..][j - 1];
      k + 1
  }

  lemma CompletedIs(pending: seq<Call>, ret: (nat, Call) -> int, k: nat)
    requires k <= |pending|
    requires forall j :: 0 <= j < k ==> ret(j, pending[j]) == 0
    requires k < |pending| ==> ret(k, pending[k]) != 0
    ensures Completed(pending, ret, 0) == k
  {
    var c := Completed(pending, ret, 0);
    assert c < |pending| ==> ret(0 + c, pending[c]) != 0;
  }

  class Context {
    var func: array?<Pointer>
    var arg: array?<Pointer>
    ghost var count: nat

    ghost predicate Valid()
      reads this, func, arg
    {
      if func == null then arg == null && count == 0
      else
        && arg != null && func != arg
        && count < func.Length && count < arg.Length
        && func[count] == 0 && forall i :: 0 <= i < count ==> func[i] != 0
    }

    ghost function Pending(): (s: seq<Call>)
      requires Valid()
      reads this, func, arg
      ensures |s| == count
    {
      if func == null then []
      else seq(count, i requires 0 <= i < count && Valid() reads this, func, arg => Call(func[i], arg[i]))
    }

    constructor ()
      ensures Valid() && Pending() == [] && func == null
    {
      func, arg, count := null, null, 0;
    }

    /** glite_jp_add_deferred. A NULL function only rewrites the terminator. */
    method AddDeferred(f: Pointer, a: Pointer)
      requires Valid()
      modifies this
      ensures Valid() && fresh(func) && fresh(arg)
      ensures Pending() == old(Pending()) + (if f == 0 then [] else [Call(f, a)])
    {
      var i := 0;
      while func != null && func[i] != 0
        invariant 0 <= i <= count
        decreases count - i
      {
        i := i + 1;
      }
      var funcs := new Pointer[i + 2];
      var args := new Pointer[i + 2];
      if func != null {
        forall k | 0 <= k < i { funcs[k] := func[k]; }
        forall k | 0 <= k < i { args[k] := arg[k]; }
      }
      funcs[i], funcs[i + 1] := f, 0;
      args[i], args[i + 1] := a, 0;
      func, arg := funcs, args;
      count := if f == 0 then i else i + 1;
    }

    /** memmove of the first n elements behind the front. */
    static method Shift(v: array<Pointer>, n: nat)
      requires n < v.Length
      modifies v
      ensures forall k :: 0 <= k < n ==> v[k] == old(v[k + 1])
    {
      forall k | 0 <= k < n { v[k] := v[k + 1]; }
    }

    /** Both arrays lose their first element, terminators included. */
    method Drop(n: nat)
      requires Valid() && n == count > 0
      modifies `count, func, arg
      ensures Valid() && func == old(func) && arg == old(arg)
      ensures Pending() == old(Pending())[1..]
    {
      ghost var before := Pending();
      Shift(func, n);
      Shift(arg, n);
      count := count - 1;
      assert forall i :: 0 <= i < count ==> Call(func[i], arg[i]) == before[i + 1];
    }

    /** glite_jp_run_deferred; ret(i, c) is what the i-th call of the run returns
        for c. The functions called do not touch the queue. */
    method RunDeferred(ret: (nat, Call) -> int) returns (code: int)
      requires Valid()
      modifies this, func, arg
      ensures Valid() && (func == null || (func == old(func) && arg == old(arg)))
      ensures var k := Completed(old(Pending()), ret, 0);
        && Pending() == old(Pending())[k..]
        && code == if k == |old(Pending())| then 0 else ret(k, old(Pending())[k])
    {
      ghost var all := Pending();
      if func == null {
        return 0;
      }
      var cnt := CountFunctions();
      for i := 0 to cnt
        invariant Valid() && func == old(func) && arg == old(arg) && func != null
        invariant count == cnt - i && cnt == |all| && Pending() == all[i..]
        invariant forall j :: 0 <= j < i ==> ret(j, all[j]) == 0
      {
        var head := Call(func[0], arg[0]);
        assert head == Pending()[0] == all[i];
        var r := ret(i, head);
        if r != 0 {
          CompletedIs(all, ret, i);
          return r;
        }
        Drop(cnt - i);
      }
      CompletedIs(all, ret, cnt);
      func, arg, count := null, null, 0;
      return 0;
    }

    method CountFunctions() returns (cnt: nat)
      requires Valid() && func != null
      ensures cnt == count
    {
      cnt := 0;
      while func[cnt] != 0
        invariant 0 <= cnt <= count
        decreases count - cnt
      {
        cnt := cnt + 1;
      }
    }
  }

  // ----- whole runs ------------------------------------------------------------------

  datatype Op = Add(func: Pointer, arg: Pointer) | Run(ret: (nat, Call) -> int)

  datatype Queue = Queue(done: seq<Call>, pending: seq<Call>)

  /** The effect of one call of AddDeferred or RunDeferred, with what was completed
      so far kept beside the queue. */
  function Step(q: Queue, op: Op): Queue {
    match op
    case Add(f, a) => q.(pending := q.pending + (if f == 0 then [] else [Call(f, a)]))
    case Run(ret) =>
      var k := Completed(q.pending, ret, 0);
      Queue(q.done + q.pending[..k], q.pending[k..])
  }

  function Steps(q: Queue, ops: seq<Op>): Queue
    decreases ops
  {
    if ops == [] then q else Steps(Step(q, ops[0]), ops[1..])
  }

  function EnqueuedBy(op: Op): seq<Call> {
    if op.Add? && op.func != 0 then [Call(op.func, op.arg)] else []
  }

  function Enqueued(ops: seq<Op>): seq<Call> {
    if ops == [] then [] else EnqueuedBy(ops[0]) + Enqueued(ops[1..])
  }

  lemma StepLosesNothing(q: Queue, op: Op)
    ensures var r := Step(q, op); r.done + r.pending == q.done + q.pending + EnqueuedBy(op)
  {
    if op.Run? {
      var k := Completed(q.pending, op.ret, 0);
      assert q.pending == q.pending[..k] + q.pending[k..];
    }
  }

  /** First in, first out, nothing lost: what was completed, followed by what is
      pending, is always exactly what was enqueued, function and argument paired. */
  lemma {:induction false} NothingIsLost(q: Queue, ops: seq<Op>)
    ensures var r := Steps(q, ops); r.done + r.pending == q.done + q.pending + Enqueued(ops)
    decreases ops
  {
    if ops == [] {
      assert q.done + q.pending + [] == q.done + q.pending;
    } else {
      var next, first := Step(q, ops[0]), EnqueuedBy(ops[0]);
      NothingIsLost(next, ops[1..]);
      StepLosesNothing(q, ops[0]);
      assert q.done + q.pending + first + Enqueued(ops[1..]) == q.done + q.pending + (first + Enqueued(ops[1..]));
    }
  }

  /** A run ends with an empty queue, or with the failing call in front of all
      later ones; every call before it succeeded. */
  lemma FailureStaysAtHead(q: Queue, ret: (nat, Call) -> int)
    ensures var r := Step(q, Run(ret));
      var k := |r.done| - |q.done|;
      && r.done + r.pending == q.done + q.pending
      && (r.pending != [] ==> ret(k, r.pending[0]) != 0)
      && (forall j :: 0 <= j < k ==> ret(j, q.pending[j]) == 0)
  {
    var k := Completed(q.pending, ret, 0);
    assert q.pending == q.pending[..k] + q.pending[k..];
    assert k < |q.pending| ==> ret(0 + k, q.pending[k]) != 0;
    forall j | 0 <= j < k
      ensures ret(j, q.pending[j]) == 0
    {
      assert ret(0 + j, q.pending[j]) == 0;
    }
  }

  lemma StepsSnoc(q: Queue, ops: seq<Op>, i: nat)
    requires i < |ops|
    ensures Steps(q, ops[..i + 1]) == Step(Steps(q, ops[..i]), ops[i])
    decreases i
  {
    if i == 0 {
      assert ops[..1] == [ops[0]] && ops[..0] == [] && [ops[0]][1..] == [];
    } else {
      assert ops[..i + 1][1..] == ops[1..][..i] && ops[..i][1..] == ops[1..][..i - 1];
      StepsSnoc(Step(q, ops[0]), ops[1..], i - 1);
    }
  }

  /** Any sequence of add and run calls on a context: done are the calls its runs
      complete, and followed by what the arrays still hold they are what was held before
      and what was added. */
  method Serve(ctx: Context, ops: seq<Op>) returns (ghost done: seq<Call>)
    requires ctx.Valid()
    modifies ctx, ctx.func, ctx.arg
    ensures ctx.Valid() && Queue(done, ctx.Pending()) == Steps(Queue([], old(ctx.Pending())), ops)
    ensures done + ctx.Pending() == old(ctx.Pending()) + Enqueued(ops)
  {
    ghost var first := Queue([], ctx.Pending());
    done := [];
    for i := 0 to |ops|
      invariant ctx.Valid() && Queue(done, ctx.Pending()) == Steps(first, ops[..i])
      invariant ctx.func == old(ctx.func) || ctx.func == null || fresh(ctx.func)
      invariant ctx.arg == old(ctx.arg) || ctx.arg == null || fresh(ctx.arg)
    {
      StepsSnoc(first, ops, i);
      ghost var pending := ctx.Pending();
      match ops[i] {
        case Add(f, a) =>
          ctx.AddDeferred(f, a);
        case Run(ret) =>
          var _ := ctx.RunDeferred(ret);
          done := done + pending[..Completed(pending, ret, 0)];
      }
    }
    assert ops[..|ops|] == ops;
    NothingIsLost(first, ops);
    assert [] + old(ctx.Pending()) == old(ctx.Pending());
  }
}
