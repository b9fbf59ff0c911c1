/** Failing over between model profiles within one call, over any number of calls
    (profileFailoverLLMProvider in model/qqbot/llm_retry.go). */
module Failover {
  import opened Wrappers

  datatype Error = Error(text: string, failsOver: bool)

  /** What building a client gave. */
  datatype Built = Client | BuildError(error: Error)

  /** What happens when a profile's turn comes: whether the context is over before it, what
      the factory would build, how the built client answers, and whether the context is over
      after an error. */
  datatype Turn = Turn(overBefore: bool, factory: Built, answer: Option<Error>, overAfter: bool)

  datatype Outcome = Answered(index: nat) | Failed(error: Error) | ContextOver

  /** The fields of the provider: where the rotation starts and the clients built so far. */
  datatype Provider = Provider(current: nat, clients: seq<Option<Built>>)

  predicate ProviderOk(p: Provider) { p.current < |p.clients| }

  /** One call from some offset on: the provider afterwards, the outcome, the profiles tried
      and the profiles a client was built for. */
  datatype Call = Call(provider: Provider, outcome: Outcome, tried: seq<nat>, built: seq<nat>)

  /** The profile at an offset of the rotation that starts at `current`. */
  function IndexAt(current: nat, offset: nat, profiles: nat): (index: nat)
    requires profiles > 0
    ensures index < profiles
  {
    (current + offset) % profiles
  }

  /** The client for a profile, built on first use. */
  function ClientFor(p: Provider, index: nat, factory: Built): Built
    requires index < |p.clients|
  {
    if p.clients[index].Some? then p.clients[index].value else factory
  }

  function WithClient(p: Provider, index: nat, factory: Built): Provider
    requires index < |p.clients|
  {
    p.(clients := p.clients[index := Some(ClientFor(p, index, factory))])
  }

  /** The error of a turn, if it did not answer. */
  function TurnError(p: Provider, index: nat, t: Turn): Option<Error>
    requires index < |p.clients|
  {
    match ClientFor(p, index, t.factory)
    case Client => t.answer
    case BuildError(error) => Some(error)
  }

  function Generate(p: Provider, script: nat -> Turn, offset: nat, lastError: Error): Call
    requires ProviderOk(p) && offset <= |p.clients|
    decreases |p.clients| - offset
  {
    if offset == |p.clients| then Call(p, Failed(lastError), [], [])
    else
      var t := script(offset);
      if t.overBefore then Call(p, ContextOver, [], [])
      else
        var index := IndexAt(p.current, offset, |p.clients|);
        var q := WithClient(p, index, t.factory);
        var built := if p.clients[index].None? then [index] else [];
        match TurnError(p, index, t)
        case None => Call(q.(current := index), Answered(index), [index], built)
        case Some(error) =>
          if t.overAfter then Call(q, ContextOver, [index], built)
          else if !error.failsOver then Call(q, Failed(error), [index], built)
          else
            var rest := Generate(q, script, offset + 1, error);
            rest.(tried := [index] + rest.tried, built := built + rest.built)
  }

  class ProfileFailoverProvider {
    var current: nat
    var clients: seq<Option<Built>>

    ghost function State(): Provider
      reads this
    {
      Provider(current, clients)
    }

    constructor (profiles: nat)
      requires profiles > 0
      ensures State() == Provider(0, seq(profiles, _ => None)) && ProviderOk(State())
    {
      current := 0;
      clients := seq(profiles, _ => None);
    }

    method ClientAt(index: nat, factory: Built) returns (client: Built, built: seq<nat>)
      requires index < |clients|
      modifies this`clients
      ensures client == ClientFor(old(State()), index, factory) && State() == WithClient(old(State()), index, factory)
      ensures built == if old(clients)[index].None? then [index] else []
    {
      if clients[index].Some? {
        client := clients[index].value;
        assert clients == clients[index := Some(client)];
        return client, [];
      }
      clients := clients[index := Some(factory)];
      return factory, [index];
    }

    method GenerateAny(script: nat -> Turn, unknown: Error) returns (outcome: Outcome, tried: seq<nat>, built: seq<nat>)
      requires ProviderOk(State())
      modifies this
      ensures Call(State(), outcome, tried, built) == Generate(old(State()), script, 0, unknown)
    {
      hide IndexAt, ClientFor, TurnError;
      tried, built := [], [];
      var lastError := unknown;
      var offset := 0;
      ghost var whole := Generate(State(), script, 0, unknown);
      while offset < |clients|
        invariant ProviderOk(State()) && offset <= |clients|
        invariant var rest := Generate(State(), script, offset, lastError);
                  whole == rest.(tried := tried + rest.tried, built := built + rest.built)
      {
        var t := script(offset);
        if t.overBefore {
          return ContextOver, tried, built;
        }
        ghost var before := State();
        var index := IndexAt(current, offset, |clients|);
        var client, newly := ClientAt(index, t.factory);
        ghost var triedBefore, builtBefore := tried, built;
        tried, built := tried + [index], built + newly;
        var error := if client.Client? then t.answer else Some(client.error);
        TurnErrorIs(before, index, t);
        if error.None? {
          current := index;
          return Answered(index), tried, built;
        }
        if t.overAfter {
          return ContextOver, tried, built;
        }
        if !error.value.failsOver {
          return Failed(error.value), tried, built;
        }
        ghost var rest := Generate(State(), script, offset + 1, error.value);
        Regroup(triedBefore, [index], rest.tried);
        Regroup(builtBefore, newly, rest.built);
        lastError := error.value;
        offset := offset + 1;
      }
      return Failed(lastError), tried, built;
    }
  }

  lemma TurnErrorIs(p: Provider, index: nat, t: Turn)
    requires index < |p.clients|
    ensures var client := ClientFor(p, index, t.factory);
            TurnError(p, index, t) == if client.Client? then t.answer else Some(client.error)
  {
  }

  lemma Regroup(a: seq<nat>, b: seq<nat>, c: seq<nat>)
    ensures a + (b + c) == (a + b) + c
  {
  }

  // ----- One call

  /** The first `n` profiles of the rotation from `offset`. */
  function Rotation(p: Provider, offset: nat, n: nat): seq<nat>
    requires ProviderOk(p)
  {
    seq<nat>(n, (k: nat) => IndexAt(p.current, offset + k, |p.clients|))
  }

  lemma RotationIsDistinct(p: Provider, j: nat, k: nat)
    requires ProviderOk(p) && j < k < |p.clients|
    ensures IndexAt(p.current, j, |p.clients|) != IndexAt(p.current, k, |p.clients|)
  {
    var n := |p.clients|;
    Wrap(p.current, j, n);
    Wrap(p.current, k, n);
  }

  lemma Wrap(a: nat, b: nat, n: nat)
    requires a < n && b < n
    ensures (a + b) % n == if a + b < n then a + b else a + b - n
  {
    if a + b < n {
    } else {
      assert a + b == 1 * n + (a + b - n);
      Remainder(a + b - n, n);
    }
  }

  lemma Remainder(r: nat, n: nat)
    requires r < n
    ensures (r + n) % n == r
  {
  }

  lemma RotationStep(p: Provider, offset: nat, n: nat)
    requires ProviderOk(p)
    ensures Rotation(p, offset, n + 1) == [IndexAt(p.current, offset, |p.clients|)] + Rotation(p, offset + 1, n)
    ensures Rotation(p, offset, 0) == []
  {
    hide IndexAt;
  }

  /** The profile at an offset of the rotation fails over when its turn comes. */
  predicate FailedOver(p: Provider, script: nat -> Turn, offset: nat)
    requires ProviderOk(p)
  {
    var e := TurnErrorAt(p, script, offset);
    e.Some? && e.value.failsOver && !script(offset).overAfter
  }

  /** The turn of a profile that fails over, and the rest of the call. */
  lemma FailingTurn(p: Provider, script: nat -> Turn, offset: nat, lastError: Error) returns (q: Provider, error: Error)
    requires ProviderOk(p) && offset < |p.clients| && !script(offset).overBefore && FailedOver(p, script, offset)
    ensures ProviderOk(q) && |q.clients| == |p.clients| && q.current == p.current
    ensures TurnErrorAt(p, script, offset) == Some(error)
    ensures var c, rest := Generate(p, script, offset, lastError), Generate(q, script, offset + 1, error);
            var index := IndexAt(p.current, offset, |p.clients|);
            && c.provider == rest.provider && c.outcome == rest.outcome && c.tried == [index] + rest.tried
            && c.built == (if p.clients[index].None? then [index] else []) + rest.built
            && q.clients == p.clients[index := Some(ClientFor(p, index, script(offset).factory))]
    ensures forall k :: offset < k < |p.clients| ==> TurnErrorAt(q, script, k) == TurnErrorAt(p, script, k)
  {
    hide IndexAt;
    var t, index := script(offset), IndexAt(p.current, offset, |p.clients|);
    q, error := WithClient(p, index, t.factory), TurnError(p, index, t).value;
    forall k | offset < k < |p.clients| ensures TurnErrorAt(q, script, k) == TurnErrorAt(p, script, k) {
      RotationIsDistinct(p, offset, k);
    }
  }

  /** The turn of a profile that ends the call. */
  lemma LastTurn(p: Provider, script: nat -> Turn, offset: nat, lastError: Error)
    requires ProviderOk(p) && offset < |p.clients| && !script(offset).overBefore && !FailedOver(p, script, offset)
    ensures var c, t := Generate(p, script, offset, lastError), script(offset);
            var index := IndexAt(p.current, offset, |p.clients|);
            var error := TurnErrorAt(p, script, offset);
            && c.tried == [index] && c.built == (if p.clients[index].None? then [index] else [])
            && c.provider.clients == p.clients[index := Some(ClientFor(p, index, t.factory))]
            && c.provider.current == (if error.None? then index else p.current)
            && c.outcome == if error.None? then Answered(index)
                            else if t.overAfter then ContextOver else Failed(error.value)
  {
    hide IndexAt;
  }

  /** A call tries profiles in rotation, answers from the last one it tried, and got there
      only because every earlier one failed over. */
  lemma {:induction false} CallFollowsRotation(p: Provider, script: nat -> Turn, offset: nat, lastError: Error)
    requires ProviderOk(p) && offset <= |p.clients|
    ensures var c := Generate(p, script, offset, lastError);
            && ProviderOk(c.provider) && |c.provider.clients| == |p.clients|
            && |c.tried| <= |p.clients| - offset && c.tried == Rotation(p, offset, |c.tried|)
            && (forall k :: offset <= k < offset + |c.tried| - 1 ==> FailedOver(p, script, k))
            && (c.outcome.Answered? <==>
                  c.tried != [] && TurnErrorAt(p, script, offset + |c.tried| - 1).None?)
            && (c.outcome.Answered? ==> c.outcome.index == c.provider.current == c.tried[|c.tried| - 1])
            && (!c.outcome.Answered? ==> c.provider.current == p.current)
    decreases |p.clients| - offset
  {
    hide IndexAt;
    if offset < |p.clients| && !script(offset).overBefore {
      RotationStep(p, offset, 0);
      var t, index := script(offset), IndexAt(p.current, offset, |p.clients|);
      var error := TurnError(p, index, t);
      var q := WithClient(p, index, t.factory);
      if error.Some? && !t.overAfter && error.value.failsOver {
        CallFollowsRotation(q, script, offset + 1, error.value);
        var rest := Generate(q, script, offset + 1, error.value);
        forall k | offset + 1 <= k < |p.clients| ensures TurnErrorAt(q, script, k) == TurnErrorAt(p, script, k) {
          RotationIsDistinct(p, offset, k);
        }
        assert forall k :: offset + 1 <= k < |p.clients| && FailedOver(q, script, k) ==> FailedOver(p, script, k);
        RotationStep(p, offset, |rest.tried|);
        SameRotation(p, q, offset + 1, |rest.tried|);
        hide Rotation;
      }
    }
  }

  lemma SameRotation(p: Provider, q: Provider, offset: nat, n: nat)
    requires ProviderOk(p) && ProviderOk(q) && q.current == p.current && |q.clients| == |p.clients|
    ensures Rotation(q, offset, n) == Rotation(p, offset, n)
  {
  }

  /** How a call ends: it answers, or the context was over, or its error is the last one. It stops
      before the end of the rotation only for an answer, an error that does not fail over, or a
      context that is over. */
  lemma {:induction false} CallEnds(p: Provider, script: nat -> Turn, offset: nat, lastError: Error)
    requires ProviderOk(p) && offset <= |p.clients|
    ensures var c := Generate(p, script, offset, lastError);
            var n := |c.tried|;
            var next := offset + n;
            var error := if n == 0 then Some(lastError) else TurnErrorAt(p, script, next - 1);
            var goesOn := n == 0 || FailedOver(p, script, next - 1);
            && next <= |p.clients| && (goesOn && next < |p.clients| ==> script(next).overBefore)
            && c.outcome == if error.None? then Answered(IndexAt(p.current, next - 1, |p.clients|))
                            else if goesOn && next < |p.clients| then ContextOver
                            else if n > 0 && script(next - 1).overAfter then ContextOver
                            else Failed(error.value)
    decreases |p.clients| - offset
  {
    if offset < |p.clients| && !script(offset).overBefore {
      if FailedOver(p, script, offset) {
        var q, error := FailingTurn(p, script, offset, lastError);
        hide IndexAt, Generate, TurnErrorAt, ClientFor;
        CallEnds(q, script, offset + 1, error);
      } else {
        LastTurn(p, script, offset, lastError);
        hide IndexAt, Generate, ClientFor;
      }
    }
  }

  /** The error the profile at an offset of the rotation gives when its turn comes. */
  function TurnErrorAt(p: Provider, script: nat -> Turn, offset: nat): Option<Error>
    requires ProviderOk(p)
  {
    TurnError(p, IndexAt(p.current, offset, |p.clients|), script(offset))
  }

  /** No profile is tried twice in one call. */
  lemma TriesAreDistinct(p: Provider, script: nat -> Turn, lastError: Error, j: nat, k: nat)
    requires ProviderOk(p) && j < k < |Generate(p, script, 0, lastError).tried|
    ensures Generate(p, script, 0, lastError).tried[j] != Generate(p, script, 0, lastError).tried[k]
  {
    CallFollowsRotation(p, script, 0, lastError);
    RotationIsDistinct(p, j, k);
  }

  // ----- Any number of calls

  function RunCalls(p: Provider, scripts: seq<nat -> Turn>, unknown: Error): seq<nat>
    requires ProviderOk(p)
    decreases |scripts|
  {
    if scripts == [] then []
    else
      var c := Generate(p, scripts[0], 0, unknown);
      CallFollowsRotation(p, scripts[0], 0, unknown);
      c.built + RunCalls(c.provider, scripts[1..], unknown)
  }

  /** Each index occurs at most once and none of them has a client in `p`. */
  ghost predicate NewClients(p: Provider, built: seq<nat>) {
    && (forall i :: i in built ==> i < |p.clients| && p.clients[i].None?)
    && (forall j, k :: 0 <= j < k < |built| ==> built[j] != built[k])
  }

  /** Clients built before, and clients new to a provider that has those, are all new. */
  lemma NewAfterNew(p: Provider, q: Provider, a: seq<nat>, b: seq<nat>)
    requires NewClients(p, a) && NewClients(q, b) && |q.clients| == |p.clients|
    requires forall i :: 0 <= i < |p.clients| && p.clients[i].Some? ==> q.clients[i].Some?
    requires forall i :: i in a ==> q.clients[i].Some?
    ensures NewClients(p, a + b)
  {
    assert forall j :: 0 <= j < |a| ==> a[j] in a;
    assert forall k :: 0 <= k < |b| ==> b[k] in b;
  }

  lemma {:induction false} CallBuildsNew(p: Provider, script: nat -> Turn, offset: nat, lastError: Error)
    requires ProviderOk(p) && offset <= |p.clients|
    ensures var c := Generate(p, script, offset, lastError);
            && NewClients(p, c.built) && |c.provider.clients| == |p.clients|
            && (forall i :: 0 <= i < |p.clients| && p.clients[i].Some? ==> c.provider.clients[i] == p.clients[i])
            && (forall i :: i in c.built ==> c.provider.clients[i].Some?)
    decreases |p.clients| - offset
  {
    hide IndexAt;
    if offset < |p.clients| && !script(offset).overBefore {
      var t, index := script(offset), IndexAt(p.current, offset, |p.clients|);
      var error := TurnError(p, index, t);
      if error.Some? && !t.overAfter && error.value.failsOver {
        var q := WithClient(p, index, t.factory);
        CallBuildsNew(q, script, offset + 1, error.value);
        var rest := Generate(q, script, offset + 1, error.value);
        NewAfterNew(p, q, if p.clients[index].None? then [index] else [], rest.built);
      }
    }
  }

  /** A call builds a client for just those profiles that it tries and that have none. */
  lemma {:induction false} TriedAreBuilt(p: Provider, script: nat -> Turn, offset: nat, lastError: Error, i: nat)
    requires ProviderOk(p) && offset <= |p.clients| && i < |p.clients|
    ensures var c := Generate(p, script, offset, lastError);
            && |c.provider.clients| == |p.clients|
            && (i in c.built <==> i in c.tried && p.clients[i].None?)
            && (i !in c.tried || p.clients[i].Some? ==> c.provider.clients[i] == p.clients[i])
    decreases |p.clients| - offset
  {
    if offset < |p.clients| && !script(offset).overBefore {
      if FailedOver(p, script, offset) {
        var q, error := FailingTurn(p, script, offset, lastError);
        hide Generate, FailedOver, TurnErrorAt, IndexAt, ClientFor;
        TriedAreBuilt(q, script, offset + 1, error, i);
      } else {
        LastTurn(p, script, offset, lastError);
        hide Generate, FailedOver, TurnErrorAt, IndexAt, ClientFor;
      }
    }
  }

  /** And it keeps what the factory gave at that turn. */
  lemma {:induction false} FactoryIsKept(p: Provider, script: nat -> Turn, offset: nat, lastError: Error, k: nat)
    requires ProviderOk(p) && offset <= k < |p.clients|
    requires k < offset + |Generate(p, script, offset, lastError).tried|
    ensures var c, index := Generate(p, script, offset, lastError), IndexAt(p.current, k, |p.clients|);
            && |c.provider.clients| == |p.clients|
            && c.provider.clients[index] == Some(ClientFor(p, index, script(k).factory))
    decreases |p.clients| - offset
  {
    TriesAtMost(p, script, offset, lastError);
    if FailedOver(p, script, offset) {
      var q, error := FailingTurn(p, script, offset, lastError);
      if k == offset {
        hide Generate, FailedOver, TurnErrorAt;
        TriedAreBuilt(q, script, offset + 1, error, IndexAt(p.current, k, |p.clients|));
      } else {
        RotationIsDistinct(p, offset, k);
        hide Generate, FailedOver, TurnErrorAt, IndexAt;
        FactoryIsKept(q, script, offset + 1, error, k);
      }
    } else {
      LastTurn(p, script, offset, lastError);
    }
  }

  lemma TriesAtMost(p: Provider, script: nat -> Turn, offset: nat, lastError: Error)
    requires ProviderOk(p) && offset < |p.clients| && Generate(p, script, offset, lastError).tried != []
    ensures !script(offset).overBefore
  {
    hide IndexAt, TurnError;
  }

  /** However many calls are made and however they end, each client is built at most once. */
  lemma {:induction false} ClientsAreBuiltOnce(p: Provider, scripts: seq<nat -> Turn>, unknown: Error)
    requires ProviderOk(p)
    ensures NewClients(p, RunCalls(p, scripts, unknown))
    decreases |scripts|
  {
    hide Generate;
    if scripts != [] {
      var c := Generate(p, scripts[0], 0, unknown);
      CallFollowsRotation(p, scripts[0], 0, unknown);
      CallBuildsNew(p, scripts[0], 0, unknown);
      ClientsAreBuiltOnce(c.provider, scripts[1..], unknown);
      NewAfterNew(p, c.provider, c.built, RunCalls(c.provider, scripts[1..], unknown));
    }
  }
}
