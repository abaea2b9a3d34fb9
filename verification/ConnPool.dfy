/** The pooled command connections, one per account, and the single retry on a fresh one. */
module ConnPool {
  type Client = nat
  type Alias = string

  /** Nanoseconds. */
  const MAX_CMD_IDLE: int := 90_000_000_000

  datatype CmdConn = CmdConn(client: Client, usedAt: int)

  /** One execution of a command: on which client, for how long it had been unused, whether it was closed. */
  datatype Run = Run(client: Client, idle: int, closed: bool, ok: bool)

  datatype Dial = Refused | Dialed(client: Client)

  type Conns = map<Alias, CmdConn>

  /** Every dialed client is closed, or pooled under exactly one alias, and never both. */
  ghost predicate Owned(conns: Conns, dialed: set<Client>, closed: set<Client>) {
    && closed <= dialed
    && (forall a :: a in conns ==> conns[a].client in dialed && conns[a].client !in closed)
    && (forall a, b :: a in conns && b in conns && conns[a].client == conns[b].client ==> a == b)
    && (forall c :: c in dialed && c !in closed ==> Pooled(conns, c))
  }

  ghost predicate Pooled(conns: Conns, c: Client) {
    exists a :: a in conns && conns[a].client == c
  }

  lemma OwnedAfterClose(conns: Conns, dialed: set<Client>, closed: set<Client>, key: Alias)
    requires Owned(conns, dialed, closed) && key in conns
    ensures Owned(conns - {key}, dialed, closed + {conns[key].client})
  {
    forall c | c in dialed && c !in closed + {conns[key].client}
      ensures Pooled(conns - {key}, c)
    {
      var a :| a in conns && conns[a].client == c;
      assert a in conns - {key} && (conns - {key})[a].client == c;
    }
  }

  lemma OwnedAfterPark(conns: Conns, dialed: set<Client>, closed: set<Client>, key: Alias, cc: CmdConn)
    requires Owned(conns, dialed, closed)
    requires if key in conns then cc.client == conns[key].client else cc.client !in dialed
    ensures Owned(conns[key := cc], dialed + {cc.client}, closed)
  {
    forall c | c in dialed + {cc.client} && c !in closed
      ensures Pooled(conns[key := cc], c)
    {
      if c == cc.client {
        assert conns[key := cc][key].client == c;
      } else {
        var a :| a in conns && conns[a].client == c;
        assert conns[key := cc][a].client == c;
      }
    }
  }

  /** The connection is there and has not been idle too long. */
  predicate Usable(conns: Conns, key: Alias, now: int) {
    key in conns && now - conns[key].usedAt <= MAX_CMD_IDLE
  }

  class Manager {
    var conns: map<Alias, CmdConn>
    ghost var dialed: set<Client>     // every client ever dialed
    ghost var closed: set<Client>
    ghost var clock: int              // a time no later than any coming reading

    constructor ()
      ensures Valid() && conns == map[] && dialed == {}
    {
      conns, dialed, closed, clock := map[], {}, {}, 0;
    }

    ghost predicate Valid()
      reads this
    {
      Owned(conns, dialed, closed) && forall a :: a in conns ==> conns[a].usedAt <= clock
    }

    method Close(c: Client)
      modifies this`closed
      ensures closed == old(closed) + {c}
    {
      closed := closed + {c};
    }

    /**
      Runs a command for one account.  `now` and `parked` are the clock before and after; `first` and `second` are
      what the command returns on the pooled and on the fresh connection.
     */
    method WithCommandConn(key: Alias, now: int, parked: int, credential: bool, dial: Dial, first: bool, second: bool)
      returns (ok: bool, ghost runs: seq<Run>)
      requires Valid() && clock <= now <= parked && (dial.Dialed? ==> dial.client !in dialed)
      modifies this
      ensures Valid() && clock == parked
      ensures |runs| <= 2
      ensures ok <==> runs != [] && runs[|runs| - 1].ok
      ensures forall i :: 0 <= i < |runs| ==> !runs[i].closed && runs[i].idle <= MAX_CMD_IDLE
      ensures |runs| == 2 ==> !runs[0].ok && runs[0].client != runs[1].client && runs[1].idle == 0
      ensures ok ==> key in conns && conns[key].client == runs[|runs| - 1].client
      ensures !ok ==> key !in conns
      ensures forall a :: a != key ==> (a in conns <==> a in old(conns)) && (a in conns ==> conns[a] == old(conns)[a])
      ensures
        var usable := Usable(old(conns), key, now);
        var anew := !(usable && first) && credential && dial.Dialed?;
        && (ok <==> (usable && first) || (anew && second))
        && |runs| == (if usable then 1 else 0) + (if anew then 1 else 0)
        && (usable ==> runs[0].client == old(conns)[key].client && runs[0].ok == first)
        && (anew ==> runs[|runs| - 1].client == dial.client && runs[|runs| - 1].ok == second)
        && dialed == old(dialed) + (if anew then {dial.client} else {})
        && (ok ==> conns[key].usedAt == if anew then parked else now)
    {
      runs := [];
      clock := parked;
      if key in conns && now - conns[key].usedAt > MAX_CMD_IDLE { Discard(key); }
      if key in conns {
        runs := [Run(conns[key].client, now - conns[key].usedAt, conns[key].client in closed, first)];
        Touch(key, now);
        if first { return true, runs; }
        Discard(key);
      }
      if !credential || dial.Refused? { return false, runs; }
      var run := RunFresh(key, parked, dial.client, second);
      return second, runs + [run];
    }

    method Touch(key: Alias, now: int)
      requires Valid() && key in conns && now <= clock
      modifies this`conns
      ensures Valid() && conns == old(conns)[key := old(conns)[key].(usedAt := now)]
    {
      OwnedAfterPark(conns, dialed, closed, key, conns[key].(usedAt := now));
      assert dialed + {conns[key].client} == dialed;
      conns := conns[key := conns[key].(usedAt := now)];
    }

    /** Closes and forgets a pooled connection. */
    method Discard(key: Alias)
      requires Valid() && key in conns
      modifies this`conns, this`closed
      ensures Valid() && conns == old(conns) - {key} && closed == old(closed) + {old(conns)[key].client}
    {
      OwnedAfterClose(conns, dialed, closed, key);
      Close(conns[key].client);
      conns := conns - {key};
    }

    /** The run on a fresh connection, which is parked if it succeeds and closed if not. */
    method RunFresh(key: Alias, parked: int, client: Client, ok: bool) returns (ghost run: Run)
      requires Valid() && key !in conns && client !in dialed && parked <= clock
      modifies this`conns, this`closed, this`dialed
      ensures Valid() && run == Run(client, 0, false, ok) && dialed == old(dialed) + {client}
      ensures conns == if ok then old(conns)[key := CmdConn(client, parked)] else old(conns)
    {
      OwnedAfterPark(conns, dialed, closed, key, CmdConn(client, parked));
      dialed := dialed + {client};
      run := Run(client, 0, client in closed, ok);
      if ok {
        conns := conns[key := CmdConn(client, parked)];
      } else {
        ghost var pooled := conns[key := CmdConn(client, parked)];
        OwnedAfterClose(pooled, dialed, closed, key);
        assert pooled - {key} == conns;
        Close(client);
      }
    }

    /** Releases one account's pooled connection. */
    method DropCommandConn(alias: Alias)
      requires Valid()
      modifies this`conns, this`closed
      ensures Valid() && conns == old(conns) - {alias}
      ensures alias in old(conns) ==> closed == old(closed) + {old(conns)[alias].client}
      ensures alias !in old(conns) ==> closed == old(closed)
    {
      if alias in conns {
        Discard(alias);
      } else {
        assert conns - {alias} == conns;
      }
    }

    /** After the command loop has ended: every client ever dialed is closed. */
    method Shutdown()
      requires Valid()
      modifies this`conns, this`closed
      ensures Valid() && conns == map[] && closed == dialed
    {
      while conns != map[]
        invariant Valid()
        decreases |conns|
      {
        var alias :| alias in conns;
        var before := conns;
        DropCommandConn(alias);
        assert before.Keys == conns.Keys + {alias};
        assert |before.Keys| == |conns.Keys| + 1;
      }
    }
  }
}
