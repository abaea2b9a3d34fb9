/**
  The sealed credential store: one file, replaced atomically on every change, that a process crash may meet at
  any step of a write.
 */
module SealedStore {
  import MasterKey

  type Bytes = MasterKey.Bytes
  type Name = string
  type Entries = map<string, MasterKey.Box>
  type Secrets = map<string, Bytes>

  datatype Option<T> = None | Some(value: T)

  /** The JSON encoding, of which only the round trip is used. */
  datatype Codec = Codec(encode: Entries -> Bytes, decode: Bytes -> Option<Entries>)

  ghost predicate Lawful(c: Codec) {
    forall e :: c.decode(c.encode(e)) == Some(e)
  }

  /** Where a write ends early: by a crash of the process, or by an error that the write reports. */
  datatype Fault =
    | NoFault
    | AtCreate(crash: bool)
    | AtWrite(written: nat, crash: bool)
    | AtSync(crash: bool)
    | AtRename(crash: bool)
    | AfterRename                        // crash before the call returns

  /** The write gets as far as its rename. */
  predicate Lands(fault: Fault) {
    fault == NoFault || fault == AfterRename
  }

  datatype Outcome = Done | Failed | Crashed

  datatype Op = Store(alias: string, secret: Bytes, nonce: nat) | Delete(alias: string)

  function After(m: Secrets, op: Op): Secrets {
    match op
    case Store(alias, secret, _) => m[alias := secret]
    case Delete(alias) => m - {alias}
  }

  function AfterAll(m: Secrets, ops: seq<Op>): Secrets
    decreases |ops|
  {
    if ops == [] then m else After(AfterAll(m, ops[..|ops| - 1]), ops[|ops| - 1])
  }

  /** The entries are the secrets, each sealed under the key and bound to its alias. */
  ghost predicate Seals(e: Entries, key: Bytes, m: Secrets) {
    && e.Keys == m.Keys
    && forall a :: a in m ==> e[a].key == key && e[a].alias == a && e[a].secret == m[a]
  }

  /** What opening the store from the disk would yield. */
  ghost function Opened(files: map<Name, Bytes>, path: Name, c: Codec): Option<Entries> {
    if path in files then c.decode(files[path]) else Some(map[])
  }

  const MAX_RENAME_RETRIES: nat := 6

  class Disk {
    var files: map<Name, Bytes>

    constructor (files: map<Name, Bytes>)
      ensures this.files == files
    {
      this.files := files;
    }

    /** Renames, retrying while the target is held open; `busy` is how many attempts find it so. */
    method RenamePublish(tmp: Name, path: Name, busy: nat) returns (ok: bool)
      requires tmp in files && tmp != path
      modifies this
      ensures ok <==> busy <= MAX_RENAME_RETRIES
      ensures files == if ok then old(files)[path := old(files)[tmp]] - {tmp} else old(files)
    {
      var attempt := 0;
      while true
        invariant 0 <= attempt <= busy && attempt <= MAX_RENAME_RETRIES
        invariant files == old(files)
        decreases MAX_RENAME_RETRIES - attempt
      {
        if attempt == busy {
          files := files[path := files[tmp]] - {tmp};
          return true;
        }
        if attempt >= MAX_RENAME_RETRIES { return false; }
        attempt := attempt + 1;
      }
    }

    /** Writes `data` to `path` through the temp file `tmp`, a name nobody else uses. */
    method WriteFileAtomic(path: Name, data: Bytes, tmp: Name, busy: nat, fault: Fault) returns (r: Outcome)
      requires tmp !in files && tmp != path
      modifies this
      ensures r == Done ==> files == old(files)[path := data] && busy <= MAX_RENAME_RETRIES
      ensures r == Failed ==> files == old(files)
      ensures r == Crashed ==>
        && (forall n :: n in old(files) && n != path ==> n in files && files[n] == old(files)[n])
        && (forall n :: n in files ==> n in old(files) || n == tmp || n == path)
        && (if fault == AfterRename then path in files && files[path] == data
            else (path in files <==> path in old(files)) && (path in files ==> files[path] == old(files)[path]))
      ensures fault == NoFault && busy <= MAX_RENAME_RETRIES ==> r == Done
      ensures fault == AfterRename && busy <= MAX_RENAME_RETRIES ==> r != Failed
      ensures !Lands(fault) ==> r != Done
    {
      if fault.AtCreate? { return if fault.crash then Crashed else Failed; }
      files := files[tmp := []];
      if fault.AtWrite? {
        files := files[tmp := data[..if fault.written < |data| then fault.written else |data|]];
        if fault.crash { return Crashed; }
        files := files - {tmp};
        return Failed;
      }
      files := files[tmp := data];
      if fault.AtSync? || fault.AtRename? {
        if fault.crash { return Crashed; }
        files := files - {tmp};
        return Failed;
      }
      var ok := RenamePublish(tmp, path, busy);
      if !ok {
        files := files - {tmp};
        return Failed;
      }
      return if fault == AfterRename then Crashed else Done;
    }
  }

  /** A temp name unlike every existing file and the target. */
  method FreshName(files: map<Name, Bytes>, path: Name) returns (tmp: Name)
    ensures tmp !in files && tmp != path
  {
    var left := files.Keys;
    var longest := |path|;
    while left != {}
      invariant |path| <= longest && forall n :: n in files && n !in left ==> |n| <= longest
      decreases |left|
    {
      var n :| n in left;
      if longest < |n| { longest := |n|; }
      left := left - {n};
    }
    tmp := seq(longest + 1, _ => 'x');
  }

  class Keystore {
    const path: Name
    const codec: Codec
    const key: Bytes          // the master key, agreed by all callers
    const disk: Disk
    var entries: Entries

    /** Opens the store: a missing file is the empty store. */
    constructor (path: Name, codec: Codec, key: Bytes, disk: Disk)
      requires Opened(disk.files, path, codec).Some?
      ensures this.path == path && this.codec == codec && this.key == key && this.disk == disk
      ensures Some(entries) == Opened(disk.files, path, codec)
    {
      this.path, this.codec, this.key, this.disk := path, codec, key, disk;
      entries := if path in disk.files then codec.decode(disk.files[path]).value else map[];
    }

    method Persist(tmp: Name, busy: nat, fault: Fault) returns (r: Outcome)
      requires Lawful(codec) && tmp !in disk.files && tmp != path
      modifies disk
      ensures entries == old(entries)
      ensures r == Done || (r == Crashed && fault == AfterRename) ==> Opened(disk.files, path, codec) == Some(entries)
      ensures r == Failed || (r == Crashed && fault != AfterRename)
        ==> Opened(disk.files, path, codec) == Opened(old(disk.files), path, codec)
      ensures fault == NoFault && busy <= MAX_RENAME_RETRIES ==> r == Done
      ensures fault == AfterRename && busy <= MAX_RENAME_RETRIES ==> r != Failed
      ensures !Lands(fault) ==> r != Done
    {
      r := disk.WriteFileAtomic(path, codec.encode(entries), tmp, busy, fault);
    }

    method StoreSecret(alias: string, secret: Bytes, nonce: nat, tmp: Name, busy: nat, fault: Fault)
      returns (r: Outcome)
      requires Lawful(codec) && tmp !in disk.files && tmp != path
      modifies this, disk
      ensures entries == old(entries)[alias := MasterKey.Seal(key, nonce, alias, secret)]
      ensures r == Done || (r == Crashed && fault == AfterRename) ==> Opened(disk.files, path, codec) == Some(entries)
      ensures r == Failed || (r == Crashed && fault != AfterRename)
        ==> Opened(disk.files, path, codec) == Opened(old(disk.files), path, codec)
      ensures fault == NoFault && busy <= MAX_RENAME_RETRIES ==> r == Done
      ensures fault == AfterRename && busy <= MAX_RENAME_RETRIES ==> r != Failed
      ensures !Lands(fault) ==> r != Done
    {
      entries := entries[alias := MasterKey.Seal(key, nonce, alias, secret)];
      r := Persist(tmp, busy, fault);
    }

    /** A missing alias is not an error and writes nothing. */
    method DeleteSecret(alias: string, tmp: Name, busy: nat, fault: Fault) returns (r: Outcome)
      requires Lawful(codec) && tmp !in disk.files && tmp != path
      modifies this, disk
      ensures entries == old(entries) - {alias}
      ensures alias !in old(entries) ==> r == Done && disk.files == old(disk.files) && entries == old(entries)
      ensures alias in old(entries) && (r == Done || (r == Crashed && fault == AfterRename))
        ==> Opened(disk.files, path, codec) == Some(entries)
      ensures r == Failed || (r == Crashed && fault != AfterRename)
        ==> Opened(disk.files, path, codec) == Opened(old(disk.files), path, codec)
      ensures fault == NoFault && busy <= MAX_RENAME_RETRIES ==> r == Done
      ensures fault == AfterRename && busy <= MAX_RENAME_RETRIES ==> r != Failed
      ensures alias in old(entries) && !Lands(fault) ==> r != Done
    {
      if alias !in entries {
        assert entries - {alias} == entries;
        return Done;
      }
      entries := entries - {alias};
      r := Persist(tmp, busy, fault);
    }

    /** The secret last stored under the alias; the box is opened with the master key and bound to the alias. */
    method Fetch(alias: string, ghost m: Secrets) returns (r: MasterKey.Option<Bytes>)
      requires Seals(entries, key, m)
      ensures r == if alias in m then MasterKey.Some(m[alias]) else MasterKey.None
    {
      if alias !in entries { return MasterKey.None; }
      return MasterKey.Unseal(key, alias, entries[alias]);
    }
  }

  ghost predicate HoldsSecrets(files: map<Name, Bytes>, path: Name, c: Codec, key: Bytes, m: Secrets) {
    Opened(files, path, c).Some? && Seals(Opened(files, path, c).value, key, m)
  }

  method Perform(ks: Keystore, op: Op, busy: nat, fault: Fault, ghost m: Secrets) returns (r: Outcome)
    requires Lawful(ks.codec) && Opened(ks.disk.files, ks.path, ks.codec) == Some(ks.entries)
    requires Seals(ks.entries, ks.key, m)
    modifies ks, ks.disk
    ensures Seals(ks.entries, ks.key, After(m, op))
    ensures r == Done ==> Opened(ks.disk.files, ks.path, ks.codec) == Some(ks.entries)
    ensures r == Crashed ==>
      HoldsSecrets(ks.disk.files, ks.path, ks.codec, ks.key, if fault == AfterRename then After(m, op) else m)
    ensures r == Failed ==> HoldsSecrets(ks.disk.files, ks.path, ks.codec, ks.key, m)
    ensures fault == NoFault && busy <= MAX_RENAME_RETRIES ==> r == Done
    ensures fault == AfterRename && busy <= MAX_RENAME_RETRIES ==> r != Failed
    ensures r == Done && !Lands(fault) ==> After(m, op) == m
  {
    var tmp := FreshName(ks.disk.files, ks.path);
    match op
    case Store(alias, secret, nonce) => r := ks.StoreSecret(alias, secret, nonce, tmp, busy, fault);
    case Delete(alias) => r := ks.DeleteSecret(alias, tmp, busy, fault);
  }

  /** What one process tries, how many of its operations complete, and what the next one, if any, meets. */
  datatype Process = Process(ops: seq<Op>, done: nat, fault: Fault)

  /** Its operations that reach the disk: those completed, and the one in flight if that got as far as its rename. */
  function Part(p: Process): seq<Op>
    requires p.done <= |p.ops|
  {
    p.ops[..if p.done < |p.ops| && Lands(p.fault) then p.done + 1 else p.done]
  }

  function Reached(processes: seq<Process>): seq<Op>
    requires forall i :: 0 <= i < |processes| ==> processes[i].done <= |processes[i].ops|
    decreases |processes|
  {
    if processes == [] then []
    else Reached(processes[..|processes| - 1]) + Part(processes[|processes| - 1])
  }

  /** One process lifetime; the disk then holds exactly the secrets after the operations that reached it. */
  method Lifetime(disk: Disk, path: Name, codec: Codec, key: Bytes, p: Process, ghost m: Secrets)
    returns (crashed: bool)
    requires Lawful(codec) && HoldsSecrets(disk.files, path, codec, key, m) && p.done <= |p.ops|
    modifies disk
    ensures HoldsSecrets(disk.files, path, codec, key, AfterAll(m, Part(p)))
    ensures p.done == |p.ops| ==> !crashed
  {
    var ops, done := p.ops, p.done;
    var ks := new Keystore(path, codec, key, disk);
    var i := 0;
    ghost var m' := m;
    while i < done
      invariant 0 <= i <= done
      invariant ks.disk == disk && ks.path == path && ks.codec == codec && ks.key == key
      invariant Opened(disk.files, path, codec) == Some(ks.entries)
      invariant m' == AfterAll(m, ops[..i]) && Seals(ks.entries, key, m')
    {
      assert ops[..i + 1][..i] == ops[..i];
      var r := Perform(ks, ops[i], 0, NoFault, m');
      m' := After(m', ops[i]);
      i := i + 1;
    }
    crashed := false;
    if done < |ops| {
      assert ops[..done + 1][..done] == ops[..done];
      var r := Perform(ks, ops[done], 0, p.fault, m');
      crashed := r == Crashed;
    }
  }

  lemma {:induction false} AfterAllConcat(m: Secrets, xs: seq<Op>, ys: seq<Op>)
    ensures AfterAll(m, xs + ys) == AfterAll(AfterAll(m, xs), ys)
    decreases |ys|
  {
    if ys == [] {
      assert xs + ys == xs;
    } else {
      assert (xs + ys)[..|xs + ys| - 1] == xs + ys[..|ys| - 1];
      AfterAllConcat(m, xs, ys[..|ys| - 1]);
    }
  }

  lemma OneMoreProcess(processes: seq<Process>, i: nat)
    requires forall j :: 0 <= j < |processes| ==> processes[j].done <= |processes[j].ops|
    requires i < |processes|
    ensures AfterAll(map[], Reached(processes[..i + 1]))
         == AfterAll(AfterAll(map[], Reached(processes[..i])), Part(processes[i]))
  {
    assert processes[..i + 1][..i] == processes[..i];
    AfterAllConcat(map[], Reached(processes[..i]), Part(processes[i]));
  }

  /**
    Any number of lifetimes one after another, each ending in a crash, an error or in peace: the store opened at the
    end holds exactly the secrets after the operations that reached the disk, and Fetch returns them.
   */
  method Lifetimes(disk: Disk, path: Name, codec: Codec, key: Bytes, processes: seq<Process>)
    returns (reopened: Keystore)
    requires Lawful(codec) && HoldsSecrets(disk.files, path, codec, key, map[])
    requires forall i :: 0 <= i < |processes| ==> processes[i].done <= |processes[i].ops|
    modifies disk
    ensures reopened.key == key && Seals(reopened.entries, key, AfterAll(map[], Reached(processes)))
  {
    var i := 0;
    while i < |processes|
      invariant 0 <= i <= |processes|
      invariant HoldsSecrets(disk.files, path, codec, key, AfterAll(map[], Reached(processes[..i])))
    {
      var _ := Lifetime(disk, path, codec, key, processes[i], AfterAll(map[], Reached(processes[..i])));
      OneMoreProcess(processes, i);
      i := i + 1;
    }
    assert processes[..i] == processes;
    reopened := new Keystore(path, codec, key, disk);
  }

  /** The last operation on an alias decides it: a stored secret is what is held, a deleted alias is absent. */
  lemma {:induction false} LastOperationDecides(m: Secrets, ops: seq<Op>, i: nat)
    requires i < |ops| && forall j :: i < j < |ops| ==> ops[j].alias != ops[i].alias
    ensures ops[i].alias in AfterAll(m, ops) <==> ops[i].Store?
    ensures ops[i].Store? ==> AfterAll(m, ops)[ops[i].alias] == ops[i].secret
    decreases |ops|
  {
    if i < |ops| - 1 {
      LastOperationDecides(m, ops[..|ops| - 1], i);
    }
  }
}

/** Several processes replacing one file at once, each through its own temp file. */
module AtomicWriters {
  import SealedStore

  type Bytes = SealedStore.Bytes
  type Name = SealedStore.Name

  datatype Writer =
    | Ready(data: Bytes)
    | Writing(data: Bytes, tmp: Name, n: nat)
    | Renamed(data: Bytes)
    | Stopped                         // crashed or failed

  datatype State = State(files: map<Name, Bytes>, writers: map<nat, Writer>)

  datatype Action =
    | Join(w: nat, data: Bytes)
    | Create(w: nat, tmp: Name)
    | Write(w: nat, n: nat)
    | Rename(w: nat)
    | Fail(w: nat)                    // an error: the temp file is removed
    | Crash(w: nat)                   // the temp file stays

  ghost predicate Enabled(path: Name, s: State, a: Action) {
    match a
    case Join(w, _) => w !in s.writers
    case Create(w, tmp) => w in s.writers && s.writers[w].Ready? && tmp !in s.files && tmp != path
    case Write(w, n) => w in s.writers && s.writers[w].Writing? && s.writers[w].n < n <= |s.writers[w].data|
    case Rename(w) => w in s.writers && s.writers[w].Writing? && s.writers[w].n == |s.writers[w].data|
    case Fail(w) => w in s.writers && s.writers[w].Writing?
    case Crash(w) => w in s.writers
  }

  /** rename(2) of a name that is gone leaves the files alone and fails. */
  ghost function Next(path: Name, s: State, a: Action): State
    requires Enabled(path, s, a)
  {
    match a
    case Join(w, data) => s.(writers := s.writers[w := Ready(data)])
    case Create(w, tmp) => State(s.files[tmp := []], s.writers[w := Writing(s.writers[w].data, tmp, 0)])
    case Write(w, n) =>
      var data, tmp := s.writers[w].data, s.writers[w].tmp;
      State(s.files[tmp := data[..n]], s.writers[w := Writing(data, tmp, n)])
    case Rename(w) =>
      var data, tmp := s.writers[w].data, s.writers[w].tmp;
      if tmp in s.files then State(s.files[path := s.files[tmp]] - {tmp}, s.writers[w := Renamed(data)])
      else s.(writers := s.writers[w := Stopped])
    case Fail(w) => State(s.files - {s.writers[w].tmp}, s.writers[w := Stopped])
    case Crash(w) => s.(writers := s.writers[w := Stopped])
  }

  ghost predicate Runs(path: Name, s: State, acts: seq<Action>)
    decreases |acts|
  {
    acts == [] || (Enabled(path, s, acts[0]) && Runs(path, Next(path, s, acts[0]), acts[1..]))
  }

  ghost function Last(path: Name, s: State, acts: seq<Action>): State
    requires Runs(path, s, acts)
    decreases |acts|
  {
    if acts == [] then s else Last(path, Next(path, s, acts[0]), acts[1..])
  }

  /** Every temp file holds its own writer's data so far. */
  ghost predicate OwnTemps(path: Name, s: State) {
    && (forall w :: w in s.writers && s.writers[w].Writing? ==>
          var p := s.writers[w];
          p.tmp != path && p.n <= |p.data| && p.tmp in s.files && s.files[p.tmp] == p.data[..p.n])
    && (forall v, w :: v in s.writers && w in s.writers && v != w && s.writers[v].Writing? && s.writers[w].Writing?
          ==> s.writers[v].tmp != s.writers[w].tmp)
  }

  lemma OwnTempsStep(path: Name, s: State, a: Action)
    requires OwnTemps(path, s) && Enabled(path, s, a)
    ensures OwnTemps(path, Next(path, s, a))
  {
  }

  /** Data that some action of the run handed to a writer. */
  ghost predicate Offered(data: Bytes, acts: seq<Action>) {
    exists i :: 0 <= i < |acts| && acts[i].Join? && acts[i].data == data
  }

  ghost predicate Known(path: Name, s: State, was: map<Name, Bytes>, offered: seq<Action>) {
    && (forall w :: w in s.writers && (s.writers[w].Ready? || s.writers[w].Writing?) ==>
          Offered(s.writers[w].data, offered))
    && (if path in s.files then (path in was && s.files[path] == was[path]) || Offered(s.files[path], offered)
        else path !in was)
  }

  lemma {:induction false} KnownOverRuns(path: Name, s: State, was: map<Name, Bytes>, before: seq<Action>,
                                         acts: seq<Action>)
    requires OwnTemps(path, s) && Known(path, s, was, before) && Runs(path, s, acts)
    ensures OwnTemps(path, Last(path, s, acts)) && Known(path, Last(path, s, acts), was, before + acts)
    decreases |acts|
  {
    if acts == [] {
      assert before + acts == before;
    } else {
      var before' := before + [acts[0]];
      OwnTempsStep(path, s, acts[0]);
      KnownStep(path, s, was, before, acts[0]);
      KnownOverRuns(path, Next(path, s, acts[0]), was, before', acts[1..]);
      assert before' + acts[1..] == before + acts;
    }
  }

  lemma KnownStep(path: Name, s: State, was: map<Name, Bytes>, before: seq<Action>, a: Action)
    requires OwnTemps(path, s) && Known(path, s, was, before) && Enabled(path, s, a)
    ensures Known(path, Next(path, s, a), was, before + [a])
  {
    forall data | Offered(data, before)
      ensures Offered(data, before + [a])
    {
      var i :| 0 <= i < |before| && before[i].Join? && before[i].data == data;
      assert (before + [a])[i] == before[i];
    }
    assert (before + [a])[|before|] == a;
    if a.Rename? {
      var p := s.writers[a.w];
      assert p.data[..|p.data|] == p.data;
    }
  }

  /**
    Over every run of concurrent writers, failures and crashes, the file holds what it held at first or the
    complete data of one writer, and no writer's temp file is consumed or overwritten by another.
   */
  lemma WritersNeverMix(path: Name, files: map<Name, Bytes>, acts: seq<Action>)
    requires Runs(path, State(files, map[]), acts)
    ensures var t := Last(path, State(files, map[]), acts);
      && (path in files ==> path in t.files)
      && (path in t.files ==> (path in files && t.files[path] == files[path]) || Offered(t.files[path], acts))
      && OwnTemps(path, t)
  {
    KnownOverRuns(path, State(files, map[]), files, [], acts);
    assert [] + acts == acts;
  }

  /** Hence a complete writer's rename never finds its temp file missing, and publishes its own data. */
  lemma RenamePublishesOwnData(path: Name, files: map<Name, Bytes>, acts: seq<Action>, w: nat)
    requires Runs(path, State(files, map[]), acts)
    requires Enabled(path, Last(path, State(files, map[]), acts), Rename(w))
    ensures var t := Last(path, State(files, map[]), acts);
      var t' := Next(path, t, Rename(w));
      t'.writers[w] == Renamed(t.writers[w].data) && path in t'.files && t'.files[path] == t.writers[w].data
  {
    KnownOverRuns(path, State(files, map[]), files, [], acts);
    var p := Last(path, State(files, map[]), acts).writers[w];
    assert p.data[..|p.data|] == p.data;
  }
}
