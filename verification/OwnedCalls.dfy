/** `OwnedHostCall`. */
module OwnedCalls {
  import opened Seqs

  datatype CallError = NoArgument(index: nat) | AlreadyTaken(index: nat) | NotTaken(index: nat)
  datatype Outcome<T> = Done(value: T) | Failed(error: CallError)

  /** What a host asks of a call. */
  datatype Request<T> = Take(index: nat) | Restore(index: nat, value: T)

  /** The argument slots and which of them are taken. */
  datatype Call<T> = Call(args: seq<T>, taken: seq<bool>)

  predicate Shape<T>(c: Call<T>) { |c.taken| == |c.args| }

  function Start<T>(args: seq<T>): Call<T> { Call(args, seq(|args|, _ => false)) }

  predicate Accepts<T>(c: Call<T>, r: Request<T>) {
    r.index < |c.taken| && if r.Take? then !c.taken[r.index] else c.taken[r.index]
  }

  function Apply<T>(c: Call<T>, r: Request<T>, empty: T): (d: Call<T>)
    requires Shape(c)
    ensures Shape(d) && |d.args| == |c.args|
  {
    if !Accepts(c, r) then c
    else
      match r
      case Take(i) => Call(c.args[i := empty], c.taken[i := true])
      case Restore(i, v) => Call(c.args[i := v], c.taken[i := false])
  }

  function Run<T>(c: Call<T>, rs: seq<Request<T>>, empty: T): (d: Call<T>)
    requires Shape(c)
    ensures Shape(d) && |d.args| == |c.args|
  {
    if rs == [] then c else Apply(Run(c, rs[..|rs| - 1], empty), rs[|rs| - 1], empty)
  }

  /** How often a run has successfully taken, or restored, an index. */
  function Count<T>(c: Call<T>, rs: seq<Request<T>>, empty: T, i: nat, take: bool): nat
    requires Shape(c)
  {
    if rs == [] then 0
    else
      var r := rs[|rs| - 1];
      var before := rs[..|rs| - 1];
      (if r.index == i && r.Take? == take && Accepts(Run(c, before, empty), r) then 1 else 0) + Count(c, before, empty, i, take)
  }

  /** In any sequence of requests an argument is taken exactly when its takes are one ahead of its restores, and they are
      never further apart. */
  lemma {:induction false} TakenExactly<T>(args: seq<T>, rs: seq<Request<T>>, empty: T, i: nat)
    requires i < |args|
    ensures var d := Run(Start(args), rs, empty);
            var takes, restores := Count(Start(args), rs, empty, i, true), Count(Start(args), rs, empty, i, false);
            takes == restores + if d.taken[i] then 1 else 0
  {
    if rs != [] {
      TakenExactly(args, rs[..|rs| - 1], empty, i);
    }
  }

  // ---------------------------------------------------------------- who holds what

  /** What the host holds after a run: the values its takes returned, less what it has given back. */
  function Hands<T>(c: Call<T>, rs: seq<Request<T>>, empty: T): map<nat, T>
    requires Shape(c)
  {
    if rs == [] then map[]
    else
      var before, r := rs[..|rs| - 1], rs[|rs| - 1];
      var held, d := Hands(c, before, empty), Run(c, before, empty);
      if !Accepts(d, r) then held
      else if r.Take? then held[r.index := d.args[r.index]]
      else held - {r.index}
  }

  /** The host gives back what it holds. */
  predicate Honest<T(==)>(c: Call<T>, rs: seq<Request<T>>, empty: T)
    requires Shape(c)
  {
    rs == [] ||
    var before, r := rs[..|rs| - 1], rs[|rs| - 1];
    && Honest(c, before, empty)
    && (r.Restore? && Accepts(Run(c, before, empty), r) ==>
          r.index in Hands(c, before, empty) && r.value == Hands(c, before, empty)[r.index])
  }

  /** The host holds the original of exactly the arguments taken; every other slot holds its original. */
  ghost predicate Split<T>(args: seq<T>, d: Call<T>, held: map<nat, T>) {
    && |d.args| == |d.taken| == |args|
    && (forall i <- held :: i < |args| && d.taken[i] && held[i] == args[i])
    && (forall i: nat | i < |args| :: if d.taken[i] then i in held else d.args[i] == args[i])
  }

  lemma {:induction false} SlotsHold<T>(args: seq<T>, rs: seq<Request<T>>, empty: T)
    requires Honest(Start(args), rs, empty)
    ensures Split(args, Run(Start(args), rs, empty), Hands(Start(args), rs, empty))
  {
    if rs != [] {
      SlotsHold(args, rs[..|rs| - 1], empty);
    }
  }

  /** `into_untaken_args`: the arguments not taken, in order. */
  function Untaken<T>(args: seq<T>, taken: seq<bool>): seq<T>
    requires |args| == |taken|
  {
    if args == [] then [] else (if taken[0] then [] else [args[0]]) + Untaken(args[1..], taken[1..])
  }

  lemma UntakenNext<T>(args: seq<T>, taken: seq<bool>, i: nat)
    requires |args| == |taken| && i < |args|
    ensures var rest := Untaken(args[i + 1..], taken[i + 1..]);
            Untaken(args[i..], taken[i..]) == if taken[i] then rest else [args[i]] + rest
  {
    assert args[i..][1..] == args[i + 1..] && taken[i..][1..] == taken[i + 1..];
  }

  lemma UntakenEnds<T>(args: seq<T>, taken: seq<bool>)
    requires |args| == |taken|
    ensures Untaken(args[0..], taken[0..]) == Untaken(args, taken) && Untaken(args[|args|..], taken[|args|..]) == []
  {
    assert args[0..] == args && taken[0..] == taken;
  }

  /** The values in the host's hands with indices from `i` up to `n`. */
  function InHand<T>(held: map<nat, T>, i: nat, n: nat): seq<T>
    decreases n - i
  {
    if i >= n then [] else (if i in held then [held[i]] else []) + InHand(held, i + 1, n)
  }

  lemma InHandNext<T>(held: map<nat, T>, i: nat, n: nat)
    requires i < n
    ensures InHand(held, i, n) == if i in held then [held[i]] + InHand(held, i + 1, n) else InHand(held, i + 1, n)
  {
  }

  lemma Front<T>(x: T, xs: seq<T>)
    ensures multiset([x] + xs) == multiset{x} + multiset(xs)
  {
  }

  /** What is in hand and what is untaken make up the arguments from `i` on. */
  lemma {:induction false} Partition<T>(args: seq<T>, d: Call<T>, held: map<nat, T>, i: nat)
    requires Split(args, d, held) && i <= |args|
    ensures multiset(InHand(held, i, |args|)) + multiset(Untaken(args[i..], d.taken[i..])) == multiset(args[i..])
    decreases |args| - i
  {
    hide Untaken, InHand;
    if i == |args| {
      UntakenEnds(args, d.taken);
      InHandDone(held, i);
      assert args[i..] == [];
    } else {
      Partition(args, d, held, i + 1);
      UntakenNext(args, d.taken, i);
      InHandNext(held, i, |args|);
      Front(args[i], args[i + 1..]);
      assert args[i..] == [args[i]] + args[i + 1..];
      if d.taken[i] {
        Front(args[i], InHand(held, i + 1, |args|));
      } else {
        Front(args[i], Untaken(args[i + 1..], d.taken[i + 1..]));
      }
    }
  }

  lemma InHandDone<T>(held: map<nat, T>, n: nat)
    ensures InHand(held, n, n) == []
  {
  }

  lemma {:induction false} UntakenSame<T>(a: seq<T>, b: seq<T>, taken: seq<bool>)
    requires |a| == |b| == |taken| && forall i | 0 <= i < |a| && !taken[i] :: a[i] == b[i]
    ensures Untaken(a, taken) == Untaken(b, taken)
  {
    if a != [] {
      UntakenSame(a[1..], b[1..], taken[1..]);
    }
  }

  /** After any run with an honest host: its hands hold the originals of exactly the arguments taken, and these with what is
      put back are the original arguments, each once; what is put back keeps its order. */
  lemma NothingLost<T>(args: seq<T>, rs: seq<Request<T>>, empty: T)
    requires Honest(Start(args), rs, empty)
    ensures var d, held := Run(Start(args), rs, empty), Hands(Start(args), rs, empty);
            && (forall i: nat :: i in held <==> i < |args| && d.taken[i])
            && (forall i <- held :: held[i] == args[i])
            && Untaken(d.args, d.taken) == Untaken(args, d.taken)
            && multiset(InHand(held, 0, |args|)) + multiset(Untaken(d.args, d.taken)) == multiset(args)
  {
    hide Honest, Hands;
    var d, held := Run(Start(args), rs, empty), Hands(Start(args), rs, empty);
    SlotsHold(args, rs, empty);
    UntakenSame(d.args, args, d.taken);
    Partition(args, d, held, 0);
    UntakenEnds(args, d.taken);
    assert args[0..] == args;
  }

  // ---------------------------------------------------------------- the call object

  class OwnedHostCall<T> {
    var args: seq<T>
    var taken: seq<bool>

    ghost function State(): Call<T>
      reads this
    {
      Call(args, taken)
    }

    constructor (values: seq<T>)
      ensures Shape(State()) && State() == Start(values)
    {
      args := values;
      taken := seq(|values|, _ => false);
    }

    method TakeArg(index: nat, empty: T) returns (r: Outcome<T>)
      requires Shape(State())
      modifies this
      ensures Shape(State()) && State() == Apply(old(State()), Take(index), empty)
      ensures r == if index >= |old(taken)| then Failed(NoArgument(index))
                   else if old(taken)[index] then Failed(AlreadyTaken(index))
                   else Done(old(args)[index])
    {
      if index >= |taken| {
        return Failed(NoArgument(index));
      }
      if taken[index] {
        return Failed(AlreadyTaken(index));
      }
      taken := taken[index := true];
      r := Done(args[index]);
      args := args[index := empty];
    }

    method RestoreArg(index: nat, value: T, ghost empty: T) returns (r: Outcome<()>)
      requires Shape(State())
      modifies this
      ensures Shape(State()) && State() == Apply(old(State()), Restore(index, value), empty)
      ensures r == if index >= |old(taken)| then Failed(NoArgument(index))
                   else if !old(taken)[index] then Failed(NotTaken(index))
                   else Done(())
    {
      if index >= |taken| {
        return Failed(NoArgument(index));
      }
      if !taken[index] {
        return Failed(NotTaken(index));
      }
      args := args[index := value];
      taken := taken[index := false];
      r := Done(());
    }

    method IntoUntakenArgs() returns (r: seq<T>)
      requires Shape(State())
      ensures r == Untaken(args, taken)
    {
      hide Untaken;
      UntakenEnds(args, taken);
      r := [];
      for i := 0 to |args|
        invariant r + Untaken(args[i..], taken[i..]) == Untaken(args, taken)
      {
        UntakenNext(args, taken, i);
        if !taken[i] {
          Regroup(r, [args[i]], Untaken(args[i + 1..], taken[i + 1..]));
          r := r + [args[i]];
        }
      }
      assert r + [] == r;
    }
  }
}
