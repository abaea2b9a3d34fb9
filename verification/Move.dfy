/**
  Moving one message on the server and dropping its local row, when any call may fail before or after taking
  effect and the whole command may be run a second time on a fresh connection.
 */
module Move {
  type Uid = nat
  type Folder = string

  /** One server message: which message it is, and whether it is flagged \Deleted. */
  datatype Mail = Mail(id: nat, deleted: bool)

  datatype Mailbox = Mailbox(msgs: map<Uid, Mail>, next: Uid)

  type Server = map<Folder, Mailbox>

  /** A call succeeds, fails without effect, or takes effect and still reports an error. */
  datatype Outcome = Ok | Lost | Late

  /** The command: message `uid` of `src`, identity `id`, to `dest`. */
  datatype Job = Job(src: Folder, uid: Uid, id: nat, dest: Folder)

  ghost predicate ValidServer(s: Server) {
    forall f, u :: f in s && u in s[f].msgs ==> u < s[f].next
  }

  // ----- the server's commands; an unknown UID is ignored (section 6.4.8 of RFC 3501) -----

  function Append(s: Server, f: Folder, m: Mail): Server
    requires f in s
  {
    s[f := Mailbox(s[f].msgs[s[f].next := m], s[f].next + 1)]
  }

  function Without(s: Server, f: Folder, u: Uid): Server
    requires f in s
  {
    s[f := s[f].(msgs := s[f].msgs - {u})]
  }

  function Moved(s: Server, j: Job): Server
    requires j.src in s && j.dest in s
  {
    if j.uid in s[j.src].msgs then Without(Append(s, j.dest, s[j.src].msgs[j.uid]), j.src, j.uid) else s
  }

  /** COPY preserves the flags, \Deleted included. */
  function Copied(s: Server, j: Job): Server
    requires j.src in s && j.dest in s
  {
    if j.uid in s[j.src].msgs then Append(s, j.dest, s[j.src].msgs[j.uid]) else s
  }

  function Flagged(s: Server, j: Job): Server
    requires j.src in s
  {
    if j.uid in s[j.src].msgs
    then s[j.src := s[j.src].(msgs := s[j.src].msgs[j.uid := s[j.src].msgs[j.uid].(deleted := true)])] else s
  }

  /** Plain EXPUNGE removes every message of the folder that is flagged \Deleted. */
  function Expunged(s: Server, f: Folder): Server
    requires f in s
  {
    s[f := s[f].(msgs := map u | u in s[f].msgs && !s[f].msgs[u].deleted :: s[f].msgs[u])]
  }

  // ----- the outcomes of the calls -----

  /** The outcome of the call number i from now; Ok once the script is exhausted. */
  function At(script: seq<Outcome>, i: nat): Outcome {
    if i < |script| then script[i] else Ok
  }

  /** What is left of the script after n calls. */
  function Rest(script: seq<Outcome>, n: nat): seq<Outcome> {
    if n <= |script| then script[n..] else []
  }

  ghost predicate AllOk(script: seq<Outcome>, n: nat) {
    forall i :: 0 <= i < n ==> At(script, i) == Ok
  }

  /** How many of n calls are made when each waits for the success of the one before. */
  ghost function Used(script: seq<Outcome>, n: nat): nat {
    if n == 0 then 0 else if At(script, 0) == Ok then 1 + Used(Rest(script, 1), n - 1) else 1
  }

  lemma RestOfRest(script: seq<Outcome>, m: nat, n: nat)
    ensures Rest(Rest(script, m), n) == Rest(script, m + n)
    ensures At(Rest(script, m), n) == At(script, m + n)
  {
  }

  /** Calls in two parts: the second is reached if the first succeeds. */
  lemma {:induction false} InTwoParts(script: seq<Outcome>, m: nat, n: nat)
    ensures AllOk(script, m + n) <==> AllOk(script, m) && AllOk(Rest(script, m), n)
    ensures Used(script, m + n) == if AllOk(script, m) then m + Used(Rest(script, m), n) else Used(script, m)
    ensures AllOk(script, m) ==> Used(script, m) == m
    decreases m
  {
    if m == 0 {
      assert Rest(script, 0) == script;
    } else {
      var rest := Rest(script, 1);
      InTwoParts(rest, m - 1, n);
      RestOfRest(script, 1, m - 1);
      OneCall(script, m);
      OneCall(script, m + n);
    }
  }

  lemma OneCall(script: seq<Outcome>, n: nat)
    requires n > 0
    ensures AllOk(script, n) <==> At(script, 0) == Ok && AllOk(Rest(script, 1), n - 1)
  {
    if At(script, 0) == Ok && AllOk(Rest(script, 1), n - 1) {
      forall i | 0 <= i < n
        ensures At(script, i) == Ok
      {
        if i > 0 { RestOfRest(script, 1, i - 1); }
      }
    }
    if AllOk(script, n) {
      forall i | 0 <= i < n - 1
        ensures At(Rest(script, 1), i) == Ok
      {
        RestOfRest(script, 1, i);
      }
    }
  }

  /** Calls of the move on the server: SELECT and MOVE, or SELECT, COPY, STORE and EXPUNGE. */
  function MoveCalls(hasMove: bool): nat {
    if hasMove then 2 else 4
  }

  /** Calls of one execution of the command: the move, the row, HighestUID, and the sync of a cached destination. */
  function AllCalls(hasMove: bool, cached: bool): nat {
    MoveCalls(hasMove) + (if cached then 3 else 2)
  }

  /** The execution gets as far as dropping the local row. */
  ghost predicate DropsRow(script: seq<Outcome>, hasMove: bool) {
    AllOk(script, MoveCalls(hasMove)) && At(script, MoveCalls(hasMove)) != Lost
  }

  /**
    The pooled connection carries the command through; or, with the row still there, the credential, the dial and
    all calls on the fresh connection succeed.
   */
  ghost predicate Succeeds(script: seq<Outcome>, hasMove: bool, pooled: bool, cached: bool) {
    var calls := AllCalls(hasMove, cached);
    || (pooled && AllOk(script, calls))
    || (pooled && !DropsRow(script, hasMove) && AllOk(Rest(script, Used(script, calls)), 2 + calls))
    || (!pooled && AllOk(script, 2 + calls))
  }

  lemma UndisturbedSucceeds(script: seq<Outcome>, hasMove: bool, pooled: bool, cached: bool)
    requires forall i :: 0 <= i < |script| ==> script[i] == Ok
    ensures Succeeds(script, hasMove, pooled, cached)
  {
  }

  /** One fault on a pooled connection is made good by the rerun exactly if it falls before the local row is dropped. */
  lemma OneFaultMadeGoodIff(script: seq<Outcome>, i: nat, hasMove: bool, cached: bool)
    requires i < AllCalls(hasMove, cached) && At(script, i) != Ok && forall k: nat :: k != i ==> At(script, k) == Ok
    ensures Succeeds(script, hasMove, true, cached)
      <==> i < MoveCalls(hasMove) || (i == MoveCalls(hasMove) && At(script, i) == Lost)
  {
    var calls := AllCalls(hasMove, cached);
    InTwoParts(script, i, calls - i);
    RestOfRest(script, i, 0);
    var rest := Rest(script, i + 1);
    forall k: nat
      ensures At(rest, k) == Ok
    {
      RestOfRest(script, i + 1, k);
    }
  }

  // ----- what a move must keep -----

  ghost predicate HeldAt(s: Server, f: Folder, u: Uid, id: nat) {
    f in s && u in s[f].msgs && s[f].msgs[u].id == id
  }

  /** The server holds the message in the source or in the destination folder. */
  ghost predicate Conserved(s: Server, j: Job) {
    exists f, u :: f in {j.src, j.dest} && HeldAt(s, f, u, j.id)
  }

  /** The message was not flagged \Deleted before a move into its own folder. */
  ghost predicate Movable(s: Server, j: Job) {
    j.src != j.dest || (HeldAt(s, j.src, j.uid, j.id) && !s[j.src].msgs[j.uid].deleted)
  }

  /** A copy in the destination that an EXPUNGE of the source leaves alone. */
  ghost predicate SafeCopy(s: Server, j: Job) {
    exists v :: HeldAt(s, j.dest, v, j.id) && (j.src == j.dest ==> v != j.uid && !s[j.dest].msgs[v].deleted)
  }

  /** Between any two calls, reruns included: the original unflagged, or flagged once a safe copy exists. */
  ghost predicate Careful(s: Server, j: Job) {
    || SafeCopy(s, j)
    || (HeldAt(s, j.src, j.uid, j.id) && (j.src == j.dest ==> !s[j.src].msgs[j.uid].deleted))
  }

  /** Both folders exist, and UID and identity name the same message of the source. */
  ghost predicate Ready(s: Server, j: Job) {
    && ValidServer(s) && j.src in s && j.dest in s && j.uid < s[j.src].next
    && (j.uid in s[j.src].msgs ==> s[j.src].msgs[j.uid].id == j.id)
    && (j.src != j.dest ==> forall u :: u in s[j.src].msgs && s[j.src].msgs[u].id == j.id ==> u == j.uid)
  }

  lemma CarefulConserves(s: Server, j: Job)
    requires Careful(s, j)
    ensures Conserved(s, j)
  {
    if SafeCopy(s, j) {
      var v :| HeldAt(s, j.dest, v, j.id);
      assert j.dest in {j.src, j.dest};
    } else {
      assert j.src in {j.src, j.dest};
    }
  }

  lemma CopyMakesSafe(s: Server, j: Job)
    requires Ready(s, j) && Careful(s, j)
    ensures Ready(Copied(s, j), j) && SafeCopy(Copied(s, j), j)
  {
    var t := Copied(s, j);
    if SafeCopy(s, j) {
      var v :| HeldAt(s, j.dest, v, j.id) && (j.src == j.dest ==> v != j.uid && !s[j.dest].msgs[v].deleted);
      assert HeldAt(t, j.dest, v, j.id);
    } else {
      assert HeldAt(t, j.dest, s[j.dest].next, j.id);
    }
  }

  lemma FlagKeepsSafe(s: Server, j: Job)
    requires Ready(s, j) && SafeCopy(s, j)
    ensures Ready(Flagged(s, j), j) && SafeCopy(Flagged(s, j), j)
  {
    var v :| HeldAt(s, j.dest, v, j.id) && (j.src == j.dest ==> v != j.uid && !s[j.dest].msgs[v].deleted);
    assert HeldAt(Flagged(s, j), j.dest, v, j.id);
  }

  lemma ExpungeKeepsSafe(s: Server, j: Job)
    requires Ready(s, j) && SafeCopy(s, j)
    ensures Ready(Expunged(s, j.src), j) && SafeCopy(Expunged(s, j.src), j)
  {
    var v :| HeldAt(s, j.dest, v, j.id) && (j.src == j.dest ==> v != j.uid && !s[j.dest].msgs[v].deleted);
    assert HeldAt(Expunged(s, j.src), j.dest, v, j.id);
  }

  /** MOVE alone never loses the message, and keeps the stronger condition where it held. */
  lemma MoveKeeps(s: Server, j: Job)
    requires Ready(s, j) && Conserved(s, j)
    ensures Ready(Moved(s, j), j) && Conserved(Moved(s, j), j) && j.uid !in Moved(s, j)[j.src].msgs
    ensures Careful(s, j) ==> Careful(Moved(s, j), j)
  {
    var t := Moved(s, j);
    if j.uid in s[j.src].msgs {
      assert HeldAt(t, j.dest, s[j.dest].next, j.id);
      if SafeCopy(s, j) {
        var v :| HeldAt(s, j.dest, v, j.id) && (j.src == j.dest ==> v != j.uid && !s[j.dest].msgs[v].deleted);
        assert HeldAt(t, j.dest, v, j.id);
      }
    }
  }

  lemma ThreeCalls(script: seq<Outcome>)
    ensures AllOk(script, 3) <==> At(script, 0) == Ok && At(script, 1) == Ok && At(script, 2) == Ok
    ensures Used(script, 3) == if At(script, 0) != Ok then 1 else if At(script, 1) != Ok then 2 else 3
    ensures At(Rest(script, 1), 0) == At(script, 1) && At(Rest(Rest(script, 1), 1), 0) == At(script, 2)
    ensures Rest(Rest(script, 1), 1) == Rest(script, 2) && Rest(Rest(script, 2), 1) == Rest(script, 3)
  {
    RestOfRest(script, 1, 0);
    RestOfRest(script, 1, 1);
    RestOfRest(script, 2, 1);
    InTwoParts(script, 1, 2);
    InTwoParts(Rest(script, 1), 1, 1);
  }

  /** The calls after the move: the row, HighestUID, and perhaps the sync. */
  lemma RowAndSync(script: seq<Outcome>, cached: bool)
    ensures var n := if cached then 3 else 2;
      && (AllOk(script, n) <==> At(script, 0) == Ok && At(script, 1) == Ok && (cached ==> At(script, 2) == Ok))
      && Used(script, n) == if At(script, 0) != Ok then 1 else if At(script, 1) != Ok then 2 else n
    ensures At(Rest(script, 1), 0) == At(script, 1) && At(Rest(Rest(script, 1), 1), 0) == At(script, 2)
    ensures Rest(Rest(script, 1), 1) == Rest(script, 2) && Rest(Rest(script, 2), 1) == Rest(script, 3)
  {
    ThreeCalls(script);
    InTwoParts(script, 1, 1);
    OneCall(script, 2);
    OneCall(Rest(script, 1), 1);
  }

  lemma DialAndRun(script: seq<Outcome>, calls: nat)
    ensures AllOk(script, 2 + calls) <==>
      At(script, 0) == Ok && At(Rest(script, 1), 0) == Ok && AllOk(Rest(Rest(script, 1), 1), calls)
  {
    OneCall(script, 2 + calls);
    OneCall(Rest(script, 1), 1 + calls);
  }

  /** The server after a move that nothing disturbs. */
  function Effect(s: Server, j: Job, hasMove: bool): Server
    requires j.src in s && j.dest in s
  {
    if hasMove then Moved(s, j) else Expunged(Flagged(Copied(s, j), j), j.src)
  }

  /** A moment of the run: the server's mailboxes, and whether the local source row still exists. */
  datatype Moment = Moment(server: Server, row: bool)

  ghost predicate Good(m: Moment, j: Job) {
    && Conserved(m.server, j)
    && j.src in m.server
    && (!m.row ==> j.uid !in m.server[j.src].msgs)
  }

  class World {
    var server: Server
    var row: bool                    // the local row of the source message
    var script: seq<Outcome>         // outcomes of the coming calls; Ok once exhausted
    ghost var history: seq<Moment>   // the world after every call so far

    constructor (server: Server, script: seq<Outcome>)
      ensures this.server == server && this.script == script && row && history == [Moment(server, true)]
    {
      this.server, this.script, row := server, script, true;
      history := [Moment(server, true)];
    }

    ghost predicate Sound(j: Job, moveOnly: bool)
      reads this
    {
      && Ready(server, j) && Conserved(server, j) && (!moveOnly ==> Careful(server, j))
      && (!row ==> j.uid !in server[j.src].msgs)
      && forall i :: 0 <= i < |history| ==> Good(history[i], j)
    }

    method Next() returns (o: Outcome)
      modifies this`script
      ensures o == At(old(script), 0) && script == Rest(old(script), 1)
    {
      if script == [] { return Ok; }
      o, script := script[0], script[1..];
    }

    /** A server command whose effect is `after`. */
    method Command(after: Server) returns (ok: bool)
      modifies this
      ensures server == if At(old(script), 0) == Lost then old(server) else after
      ensures ok <==> At(old(script), 0) == Ok
      ensures script == Rest(old(script), 1)
      ensures row == old(row) && history == old(history) + [Moment(server, row)]
    {
      var o := Next();
      if o != Lost { server := after; }
      history := history + [Moment(server, row)];
      ok := o == Ok;
    }

    method MoveUID(j: Job, hasMove: bool) returns (ok: bool)
      requires Sound(j, hasMove)
      modifies this
      ensures Sound(j, hasMove) && row == old(row)
      ensures ok <==> AllOk(old(script), MoveCalls(hasMove))
      ensures script == Rest(old(script), Used(old(script), MoveCalls(hasMove)))
      ensures ok ==> j.uid !in server[j.src].msgs && server == Effect(old(server), j, hasMove)
    {
      ghost var was := script;
      InTwoParts(was, 1, MoveCalls(hasMove) - 1);
      ok := Command(server);         // SELECT
      if !ok { return; }
      if hasMove {
        MoveKeeps(server, j);
        ok := Command(Moved(server, j));
        return;
      }
      ok := CopyAndExpunge(j);
    }

    /** A command whose effect keeps the message careful. */
    method CarefulCommand(after: Server, j: Job) returns (ok: bool)
      requires Sound(j, false) && Ready(after, j) && Careful(after, j)
      requires !row ==> j.uid !in after[j.src].msgs
      modifies this
      ensures Sound(j, false) && row == old(row)
      ensures ok <==> At(old(script), 0) == Ok
      ensures script == Rest(old(script), 1)
      ensures ok ==> server == after
    {
      CarefulConserves(after, j);
      ok := Command(after);
    }

    /** The fallback of a server without MOVE. */
    method CopyAndExpunge(j: Job) returns (ok: bool)
      requires Sound(j, false)
      modifies this
      ensures Sound(j, false) && row == old(row)
      ensures ok <==> AllOk(old(script), 3)
      ensures script == Rest(old(script), Used(old(script), 3))
      ensures ok ==> j.uid !in server[j.src].msgs && server == Effect(old(server), j, false)
    {
      ThreeCalls(script);
      CopyMakesSafe(server, j);
      ok := CarefulCommand(Copied(server, j), j);
      if !ok { return; }
      FlagKeepsSafe(server, j);
      ok := CarefulCommand(Flagged(server, j), j);
      if !ok { return; }
      ExpungeKeepsSafe(server, j);
      ok := CarefulCommand(Expunged(server, j.src), j);
    }

    /** A missing row is an error. */
    method DeleteLocalMessage(j: Job) returns (ok: bool)
      requires j.src in server && j.uid !in server[j.src].msgs
      modifies this
      ensures server == old(server) && history == old(history) + [Moment(server, row)]
      ensures row <==> old(row) && At(old(script), 0) == Lost
      ensures ok <==> old(row) && At(old(script), 0) == Ok
      ensures script == Rest(old(script), 1)
    {
      var o := Next();
      var found := row;
      if o != Lost { row := false; }
      history := history + [Moment(server, row)];
      ok := o == Ok && found;
    }

    /** One execution of the command: `cached` says whether the destination has rows to bring up to date. */
    method Once(j: Job, hasMove: bool, cached: bool) returns (ok: bool)
      requires Sound(j, hasMove)
      modifies this
      ensures Sound(j, hasMove)
      ensures ok <==> old(row) && AllOk(old(script), AllCalls(hasMove, cached))
      ensures row <==> old(row) && !DropsRow(old(script), hasMove)
      ensures old(row) ==> script == Rest(old(script), Used(old(script), AllCalls(hasMove, cached)))
      ensures ok ==> !row && j.uid !in server[j.src].msgs && server == Effect(old(server), j, hasMove)
    {
      ghost var was, n := script, MoveCalls(hasMove);
      InTwoParts(was, n, AllCalls(hasMove, cached) - n);
      ok := MoveUID(j, hasMove);
      if !ok { return; }
      RestOfRest(was, n, 0);
      RowAndSync(script, cached);
      ok := DeleteLocalMessage(j);
      if !ok { return; }
      var o := Next();               // HighestUID
      if o != Ok { return false; }
      if !cached { return true; }
      o := Next();                   // SELECT and sync of the destination: the server's mail is only read
      ok := o == Ok;
    }

    /** The credential, the dial, and the command on the fresh connection. */
    method RunFresh(j: Job, hasMove: bool, cached: bool) returns (ok: bool)
      requires Sound(j, hasMove)
      modifies this
      ensures Sound(j, hasMove)
      ensures ok <==> old(row) && AllOk(old(script), 2 + AllCalls(hasMove, cached))
      ensures ok ==> !row && j.uid !in server[j.src].msgs
    {
      DialAndRun(script, AllCalls(hasMove, cached));
      var credential := Next();
      if credential != Ok { return false; }
      var dialed := Next();
      if dialed != Ok { return false; }
      ok := Once(j, hasMove, cached);
    }

    /**
      The whole command over the connection pool: a pooled connection whose run fails is dropped and the command
      run once more on a fresh one.  At every moment the server holds the message in one of the two folders, and
      the local row is gone only once the source folder no longer has the message.
     */
    method ExecMove(j: Job, hasMove: bool, pooled: bool, cached: bool) returns (ok: bool)
      requires row && history == [Moment(server, row)] && Ready(server, j) && HeldAt(server, j.src, j.uid, j.id)
      requires hasMove || Movable(server, j)
      modifies this
      ensures forall i :: 0 <= i < |history| ==> Good(history[i], j)
      ensures Good(Moment(server, row), j)
      ensures ok ==> !row && exists v :: HeldAt(server, j.dest, v, j.id)
      ensures ok <==> Succeeds(old(script), hasMove, pooled, cached)
    {
      assert j.src in {j.src, j.dest};
      if pooled {
        ok := Once(j, hasMove, cached);
        if ok {
          HeldInDest(j);
          return;
        }
      }
      ok := RunFresh(j, hasMove, cached);
      if ok { HeldInDest(j); }
    }

    lemma HeldInDest(j: Job)
      requires Conserved(server, j) && Ready(server, j) && j.uid !in server[j.src].msgs
      ensures exists v :: HeldAt(server, j.dest, v, j.id)
    {
    }
  }

  /** The command on a freshly described world. */
  method MoveOnce(server: Server, script: seq<Outcome>, j: Job, hasMove: bool, pooled: bool, cached: bool)
    returns (w: World, ok: bool)
    requires Ready(server, j) && HeldAt(server, j.src, j.uid, j.id) && (hasMove || Movable(server, j))
    ensures forall i :: 0 <= i < |w.history| ==> Good(w.history[i], j)
    ensures ok ==> !w.row && exists v :: HeldAt(w.server, j.dest, v, j.id)
    ensures ok <==> Succeeds(script, hasMove, pooled, cached)
  {
    w := new World(server, script);
    ok := w.ExecMove(j, hasMove, pooled, cached);
  }

  /**
    The premise on the fallback is exact: run undisturbed on a message whose identity no other message shares, it
    loses the message if and only if source and destination coincide and the message was already \Deleted.
   */
  lemma FallbackConservesIff(s: Server, j: Job)
    requires Ready(s, j) && HeldAt(s, j.src, j.uid, j.id)
    requires forall f, u :: f in {j.src, j.dest} && HeldAt(s, f, u, j.id) ==> f == j.src && u == j.uid
    ensures Conserved(Expunged(Flagged(Copied(s, j), j), j.src), j) <==> Movable(s, j)
  {
    var t := Expunged(Flagged(Copied(s, j), j), j.src);
    if Movable(s, j) {
      CopyMakesSafe(s, j);
      FlagKeepsSafe(Copied(s, j), j);
      ExpungeKeepsSafe(Flagged(Copied(s, j), j), j);
      CarefulConserves(t, j);
    } else {
      assert s[j.src].msgs[j.uid].deleted;
      forall f, u | f in {j.src, j.dest}
        ensures !HeldAt(t, f, u, j.id)
      {
        if u in t[j.src].msgs && u != s[j.src].next {
          assert u in s[j.src].msgs && u != j.uid;
          assert !HeldAt(s, j.src, u, j.id);
        }
      }
    }
  }

  /** Such a loss: a folder with one message, already flagged, moved into itself. */
  lemma MoveOntoItselfLosesMail(f: Folder, id: nat) returns (s: Server, j: Job)
    ensures Ready(s, j) && HeldAt(s, j.src, j.uid, j.id) && !Movable(s, j)
    ensures !Conserved(Expunged(Flagged(Copied(s, j), j), j.src), j)
  {
    s, j := map[f := Mailbox(map[1 := Mail(id, true)], 2)], Job(f, 1, id, f);
    FallbackConservesIff(s, j);
  }

  /** The fallback's plain EXPUNGE reaches further: another message of the folder survives exactly if unflagged. */
  lemma FallbackKeepsOthersIff(s: Server, j: Job, u: Uid)
    requires Ready(s, j) && u in s[j.src].msgs && u != j.uid
    ensures u in Expunged(Flagged(Copied(s, j), j), j.src)[j.src].msgs <==> !s[j.src].msgs[u].deleted
    ensures u in Moved(s, j)[j.src].msgs
  {
  }
}
