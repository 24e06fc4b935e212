/**
 * The sudo password cache of a session, its keys, and its shell. Encryption is ideal: opening a sealed password with
 * another key, or opening bytes that were never sealed, fails. K is the type of 32-byte keys.
 */
module Session {
  import opened Seqs

  const SUDO := "sudo"

  /** The lifetime of a negotiated key when none is asked for, in nanoseconds. */
  const DEFAULT_TTL := 15 * 60 * 1_000_000_000

  // ---- State --------------------------------------------------------------------------------

  /** What the cache stores: the password as it is, when there was no key, or sealed under a key. */
  datatype Blob<K> = Plain(password: string) | Sealed(key: K, password: string)

  datatype Entry<K> = Entry(secret: K, expiresAt: int)

  datatype State<K> = State(
    blob: Option<Blob<K>>, expiresAt: int, cacheKey: Option<K>, shared: map<string, Entry<K>>, finalized: bool, shell: bool)

  /** What reading the cache gives; Ciphertext is a sealed password handed out as if it were the password. */
  datatype Reading = Nothing | Password(password: string) | Ciphertext

  /** `key` None is a text that does not decode to 32 bytes; `starts` tells whether a new shell process comes up. */
  datatype Op<K> =
    | SetCacheKey(key: Option<K>)
    | Store(password: string, timeout: int, now: int)
    | Read(now: int)
    | Clear
    | Negotiate(id: string, secret: K, ttl: int, now: int)
    | ReadShared(id: string, now: int)
    | EnsureShell(starts: bool)
    | Finalize

  function Start<K>(): State<K> {
    State(None, 0, None, map[], false, false)
  }

  /** The dedicated key, or else the shared key for sudo, expired or not. */
  function EncryptionKey<K>(s: State<K>): Option<K> {
    if s.cacheKey.Some? then s.cacheKey
    else if SUDO in s.shared then Some(s.shared[SUDO].secret)
    else None
  }

  function Seal<K>(key: Option<K>, password: string): Blob<K> {
    match key case None => Plain(password) case Some(k) => Sealed(k, password)
  }

  /** Without a key the bytes are returned as they are. None: decryption failed. */
  function Open<K(==)>(key: Option<K>, blob: Blob<K>): Option<Reading> {
    match key
    case None => Some(if blob.Plain? then Password(blob.password) else Ciphertext)
    case Some(k) => if blob == Sealed(k, blob.password) then Some(Password(blob.password)) else None
  }

  function ClearCache<K>(s: State<K>): State<K> {
    s.(blob := None, cacheKey := None, expiresAt := 0)
  }

  function ReadCache<K(==)>(s: State<K>, now: int): (State<K>, Reading) {
    if s.blob.None? then (s, Nothing)
    else if now > s.expiresAt then (ClearCache(s), Nothing)
    else
      match Open(EncryptionKey(s), s.blob.value)
      case None => (ClearCache(s), Nothing)
      case Some(r) => (s, r)
  }

  function Step<K(==)>(s: State<K>, op: Op<K>): State<K> {
    match op
    case SetCacheKey(key) => if key.Some? then s.(cacheKey := key) else s
    case Store(password, timeout, now) =>
      if password == "" then s else s.(blob := Some(Seal(EncryptionKey(s), password)), expiresAt := now + timeout)
    case Read(now) => ReadCache(s, now).0
    case Clear => ClearCache(s)
    case Negotiate(id, secret, ttl, now) =>
      var entry := Entry(secret, now + if ttl <= 0 then DEFAULT_TTL else ttl);
      s.(shared := s.shared[id := entry], cacheKey := if id == SUDO then Some(secret) else s.cacheKey)
    case ReadShared(id, now) =>
      if id in s.shared && now > s.shared[id].expiresAt then s.(shared := s.shared - {id}) else s
    case EnsureShell(starts) => if s.finalized || s.shell then s else s.(shell := starts)
    case Finalize => ClearCache(s).(finalized := true, shared := map[], shell := false)
  }

  function Run<K(==)>(s: State<K>, ops: seq<Op<K>>): State<K>
    decreases |ops|
  {
    if ops == [] then s else Run(Step(s, ops[0]), ops[1..])
  }

  // ---- What every run keeps -------------------------------------------------------------------

  /** The password stored last and its deadline. */
  function LastStored<K>(last: Option<(string, int)>, ops: seq<Op<K>>): Option<(string, int)>
    decreases |ops|
  {
    if ops == [] then last
    else
      var next := if ops[0].Store? && ops[0].password != "" then Some((ops[0].password, ops[0].now + ops[0].timeout)) else last;
      LastStored(next, ops[1..])
  }

  /** What is cached is the password stored last, and a sealed password still has some key. */
  predicate Readable<K(==)>(s: State<K>, last: Option<(string, int)>) {
    && (s.blob.Some? ==> last == Some((s.blob.value.password, s.expiresAt)))
    && (s.blob.Some? && s.blob.value.Sealed? ==> EncryptionKey(s).Some?)
  }

  /** The one bad step: asking for the expired shared key drops it when it is all that can open the cache. */
  predicate DropsLastKey<K(==)>(s: State<K>, op: Op<K>) {
    op.ReadShared? && op.id == SUDO && SUDO in s.shared && op.now > s.shared[SUDO].expiresAt
    && s.cacheKey.None? && s.blob.Some? && s.blob.value.Sealed?
  }

  ghost predicate KeepsKeys<K>(s: State<K>, ops: seq<Op<K>>)
    decreases |ops|
  {
    ops == [] || (!DropsLastKey(s, ops[0]) && KeepsKeys(Step(s, ops[0]), ops[1..]))
  }

  /** Exactly that step breaks the cache; every other one keeps it readable. */
  lemma StepKeepsReadableIff<K>(s: State<K>, op: Op<K>, last: Option<(string, int)>)
    requires Readable(s, last)
    ensures Readable(Step(s, op), LastStored(last, [op])) <==> !DropsLastKey(s, op)
  {
    assert [op][1..] == [];
  }

  lemma LastStoredStep<K>(last: Option<(string, int)>, ops: seq<Op<K>>)
    requires ops != []
    ensures LastStored(last, ops) == LastStored(LastStored(last, [ops[0]]), ops[1..])
  {
    assert [ops[0]][1..] == [];
  }

  lemma {:induction false} RunKeepsReadable<K>(s: State<K>, ops: seq<Op<K>>, last: Option<(string, int)>)
    requires Readable(s, last) && KeepsKeys(s, ops)
    ensures Readable(Run(s, ops), LastStored(last, ops))
    decreases |ops|
  {
    if ops != [] {
      StepKeepsReadableIff(s, ops[0], last);
      LastStoredStep(last, ops);
      RunKeepsReadable(Step(s, ops[0]), ops[1..], LastStored(last, [ops[0]]));
    }
  }

  /**
   * Whatever keys were set, negotiated or dropped on the way: reading the cache returns nothing or the password
   * stored last, and nothing after its deadline.
   */
  lemma CacheReadsBack<K>(ops: seq<Op<K>>, now: int)
    requires KeepsKeys(Start<K>(), ops)
    ensures var reading, last := ReadCache(Run(Start<K>(), ops), now).1, LastStored(None, ops);
            reading == Nothing || (last.Some? && reading == Password(last.value.0) && now <= last.value.1)
  {
    RunKeepsReadable(Start<K>(), ops, None);
  }

  /** A password is returned exactly while its deadline lasts and the key is the one it was sealed with, or still none. */
  lemma ReadHitsIff<K>(s: State<K>, now: int)
    ensures ReadCache(s, now).1.Password? <==>
              s.blob.Some? && now <= s.expiresAt
              && s.blob.value == Seal(EncryptionKey(s), s.blob.value.password)
    ensures ReadCache(s, now).1 == Ciphertext <==>
              s.blob.Some? && now <= s.expiresAt && s.blob.value.Sealed? && EncryptionKey(s).None?
  {
  }

  /** A stored password can be read until its deadline as long as no key changes and nothing else is stored. */
  lemma {:induction false} StoredIsReadUntilDeadline<K>(s: State<K>, ops: seq<Op<K>>, password: string, deadline: int, now: int)
    requires s.blob == Some(Seal(EncryptionKey(s), password)) && s.expiresAt == deadline && now <= deadline
    requires forall op :: op in ops ==>
               && op != Clear && op != Finalize && (op.SetCacheKey? ==> op.key == None) && (op.Store? ==> op.password == "")
               && (op.Read? ==> op.now <= deadline) && (op.Negotiate? || op.ReadShared? ==> op.id != SUDO)
    ensures ReadCache(Run(s, ops), now).1 == Password(password)
    decreases |ops|
  {
    if ops != [] {
      assert ops[0] in ops && forall op :: op in ops[1..] ==> op in ops;
      StoredIsReadUntilDeadline(Step(s, ops[0]), ops[1..], password, deadline, now);
    }
  }

  /** Without the condition the cache hands out ciphertext: the key is cleared, a password is stored, the key expires. */
  lemma DroppedKeyGivesCiphertext<K>(secret: K, password: string)
    requires password != ""
    ensures var ops := [Negotiate(SUDO, secret, 10, 0), Clear, Store(password, 100, 1), ReadShared(SUDO, 11)];
            ReadCache(Run(Start<K>(), ops), 12).1 == Ciphertext
  {
    var s0 := Start<K>();
    var a := Step(s0, Negotiate(SUDO, secret, 10, 0));
    var b := Step(a, Clear);
    var c := Step(b, Store(password, 100, 1));
    var d := Step(c, ReadShared(SUDO, 11));
    assert b.cacheKey.None? && b.shared[SUDO] == Entry(secret, 10);
    assert c.blob == Some(Sealed(secret, password)) && d.shared == map[];
    var ops := [Negotiate(SUDO, secret, 10, 0), Clear, Store(password, 100, 1), ReadShared(SUDO, 11)];
    hide Step;
    assert Run(c, ops[1..][1..][1..]) == d;
    assert Run(b, ops[1..][1..]) == Run(c, ops[1..][1..][1..]);
    assert Run(a, ops[1..]) == Run(b, ops[1..][1..]);
  }

  // ---- Where keys, password and shell come from ---------------------------------------------------

  /** The key negotiated at step k under an id is still there: not replaced, not found expired, not finalized away. */
  ghost predicate Stands<K>(ops: seq<Op<K>>, k: nat, id: string) {
    && k < |ops| && ops[k].Negotiate? && ops[k].id == id
    && forall j :: k < j < |ops| ==> !EndsKey(ops[j], id, ops[k].now + Lifetime(ops[k].ttl))
  }

  function Lifetime(ttl: int): int {
    if ttl > 0 then ttl else 900_000_000_000
  }

  predicate EndsKey<K>(op: Op<K>, id: string, expiresAt: int) {
    op == Finalize || (op.Negotiate? && op.id == id) || (op.ReadShared? && op.id == id && expiresAt < op.now)
  }

  /** Over every run: a shared key is there exactly while the negotiation of some step stands, with its secret and deadline. */
  lemma {:induction false} SharedKeyIff<K(!new)>(ops: seq<Op<K>>, id: string)
    ensures id in Run(Start<K>(), ops).shared <==> exists k: nat :: Stands(ops, k, id)
    ensures forall k: nat :: Stands(ops, k, id) ==>
              Run(Start<K>(), ops).shared[id] == Entry(ops[k].secret, ops[k].now + Lifetime(ops[k].ttl))
    decreases |ops|
  {
    if ops != [] {
      var init, n := ops[..|ops| - 1], |ops| - 1;
      SharedKeyIff(init, id);
      RunSnoc(Start<K>(), ops);
      forall k: nat | k < n
        ensures Stands(ops, k, id) <==> Stands(init, k, id) && !EndsKey(ops[n], id, init[k].now + Lifetime(init[k].ttl))
      {
        assert init[k] == ops[k];
        if Stands(init, k, id) && !EndsKey(ops[n], id, init[k].now + Lifetime(init[k].ttl)) {
          assert forall j :: k < j < n ==> init[j] == ops[j];
        }
        if Stands(ops, k, id) { assert forall j :: k < j < n ==> init[j] == ops[j]; }
      }
      SharedKeyStep(Run(Start<K>(), init), ops[n], id);
      hide Run, Step;
      if k: nat :| Stands(init, k, id) && !EndsKey(ops[n], id, init[k].now + Lifetime(init[k].ttl)) {
        assert Stands(ops, k, id);
      }
      if ops[n].Negotiate? && ops[n].id == id { assert Stands(ops, n, id); }
    }
  }

  /** What one step does to one shared key. */
  lemma SharedKeyStep<K>(s: State<K>, op: Op<K>, id: string)
    ensures var n := Step(s, op);
            && (op.Negotiate? && op.id == id ==> id in n.shared && n.shared[id] == Entry(op.secret, op.now + Lifetime(op.ttl)))
            && (!(op.Negotiate? && op.id == id) ==>
                  (id in n.shared <==> id in s.shared && !EndsKey(op, id, s.shared[id].expiresAt))
                  && (id in n.shared ==> n.shared[id] == s.shared[id]))
  {
  }

  lemma {:induction false} RunSnoc<K>(s: State<K>, ops: seq<Op<K>>)
    requires ops != []
    ensures Run(s, ops) == Step(Run(s, ops[..|ops| - 1]), ops[|ops| - 1])
    decreases |ops|
  {
    if |ops| > 1 {
      RunSnoc(Step(s, ops[0]), ops[1..]);
      assert ops[1..][..|ops| - 2] == ops[..|ops| - 1][1..];
    } else {
      assert ops[..0] == [] && ops[1..] == [];
    }
  }

  /** A session has a shell exactly when one was started and the session is not finalized. */
  lemma {:induction false} ShellIff<K>(ops: seq<Op<K>>)
    ensures Run(Start<K>(), ops).shell <==> EnsureShell(true) in ops && Finalize !in ops
    ensures Run(Start<K>(), ops).finalized <==> Finalize in ops
    decreases |ops|
  {
    if ops != [] {
      var init := ops[..|ops| - 1];
      ShellIff(init);
      RunSnoc(Start<K>(), ops);
      assert ops == init + [ops[|ops| - 1]];
      hide Run;
    }
  }

  /** Nothing is stored, by the cache or by the client's key, from here on. */
  ghost predicate NoStores<K>(ops: seq<Op<K>>) {
    forall j :: 0 <= j < |ops| ==> !(ops[j].Store? && ops[j].password != "")
  }

  lemma {:induction false} EmptyStaysEmpty<K>(s: State<K>, ops: seq<Op<K>>)
    requires s.blob == None && NoStores(ops)
    ensures Run(s, ops).blob == None
    decreases |ops|
  {
    if ops != [] {
      assert forall j :: 0 <= j < |ops[1..]| ==> ops[1..][j] == ops[j + 1];
      EmptyStaysEmpty(Step(s, ops[0]), ops[1..]);
    }
  }

  /** After clearing or finalizing, and until a password is stored again, every read gives nothing, at any time. */
  lemma ForgottenUntilStored<K>(s: State<K>, op: Op<K>, ops: seq<Op<K>>, now: int)
    requires op in {Clear, Finalize} && NoStores(ops)
    ensures ReadCache(Run(Step(s, op), ops), now).1 == Nothing
    ensures Step(s, op).cacheKey == None
  {
    EmptyStaysEmpty(Step(s, op), ops);
  }

  /** After finalizing, and until it is negotiated again, no shared key of that id is left to hand out. */
  lemma {:induction false} SharedForgottenUntilNegotiated<K>(s: State<K>, ops: seq<Op<K>>, id: string)
    requires forall op :: op in ops ==> !(op.Negotiate? && op.id == id)
    ensures id !in Run(Step(s, Finalize), ops).shared
  {
    NoKeyComesBack(Step(s, Finalize), ops, id);
  }

  lemma {:induction false} NoKeyComesBack<K>(s: State<K>, ops: seq<Op<K>>, id: string)
    requires id !in s.shared && forall op :: op in ops ==> !(op.Negotiate? && op.id == id)
    ensures id !in Run(s, ops).shared
    decreases |ops|
  {
    if ops != [] {
      assert ops[0] in ops && forall op :: op in ops[1..] ==> op in ops;
      NoKeyComesBack(Step(s, ops[0]), ops[1..], id);
    }
  }

  /** Clearing the cache leaves the shared keys, so what is stored next can be sealed under one. */
  lemma ClearKeepsShared<K>(s: State<K>)
    ensures Step(s, Clear).shared == s.shared && Step(s, Clear).shell == s.shell && Step(s, Clear).finalized == s.finalized
  {
  }

  // ---- Finalized sessions ------------------------------------------------------------------------

  /** A finalized session stays finalized and never has a shell again. */
  lemma {:induction false} FinalizedHasNoShell<K>(s: State<K>, ops: seq<Op<K>>)
    requires s.finalized ==> !s.shell
    ensures Run(s, ops).finalized ==> !Run(s, ops).shell
    ensures s.finalized || Finalize in ops <==> Run(s, ops).finalized
    decreases |ops|
  {
    if ops != [] {
      FinalizedHasNoShell(Step(s, ops[0]), ops[1..]);
      assert ops == [ops[0]] + ops[1..];
    }
  }

  // ---- The session as the source updates it ----------------------------------------------------------

  class Session<K(==)> {
    var sudoPassword: Option<Blob<K>>
    var sudoExpiresAt: int
    var sudoCacheKey: Option<K>
    var sharedKeyCache: map<string, Entry<K>>
    var finalized: bool
    var shell: bool

    constructor ()
      ensures Value() == Start()
    {
      sudoPassword, sudoExpiresAt, sudoCacheKey, sharedKeyCache, finalized, shell := None, 0, None, map[], false, false;
    }

    function Value(): State<K>
      reads this
    {
      State(sudoPassword, sudoExpiresAt, sudoCacheKey, sharedKeyCache, finalized, shell)
    }

    method SetSudoCacheKey(decoded: Option<K>)
      modifies this`sudoCacheKey
      ensures Value() == Step(old(Value()), SetCacheKey(decoded))
      ensures sudoCacheKey == if decoded.Some? then decoded else old(sudoCacheKey)
    {
      if decoded.None? {
        return;
      }
      sudoCacheKey := decoded;
    }

    /** The dedicated key comes first, then the shared key negotiated for sudo. */
    method GetEncryptionKey() returns (key: Option<K>)
      ensures key == EncryptionKey(Value())
      ensures key == if sudoCacheKey.Some? then sudoCacheKey
                     else if SUDO in sharedKeyCache then Some(sharedKeyCache[SUDO].secret) else None
    {
      if sudoCacheKey.Some? {
        return sudoCacheKey;
      }
      if SUDO in sharedKeyCache {
        return Some(sharedKeyCache[SUDO].secret);
      }
      key := None;
    }

    method SetSudoCache(password: string, timeout: int, now: int)
      modifies this`sudoPassword, this`sudoExpiresAt
      ensures Value() == Step(old(Value()), Store(password, timeout, now))
      ensures password == "" ==> sudoPassword == old(sudoPassword) && sudoExpiresAt == old(sudoExpiresAt)
      ensures password != "" ==>
                && sudoExpiresAt == now + timeout
                && sudoPassword == Some(if sudoCacheKey.Some? then Sealed(sudoCacheKey.value, password)
                                        else if SUDO in sharedKeyCache then Sealed(sharedKeyCache[SUDO].secret, password)
                                        else Plain(password))
    {
      if password == "" {
        return;
      }
      var key := GetEncryptionKey();
      sudoPassword, sudoExpiresAt := Some(Seal(key, password)), now + timeout;
    }

    method GetSudoCache(now: int) returns (r: Reading)
      modifies this`sudoPassword, this`sudoExpiresAt, this`sudoCacheKey
      ensures Value() == Step(old(Value()), Read(now)) && r == ReadCache(old(Value()), now).1
      ensures r == Nothing ==> sudoPassword == None && (old(sudoPassword) != None ==> sudoCacheKey == None && sudoExpiresAt == 0)
      ensures r == Nothing && old(sudoPassword) == None ==> Value() == old(Value())
      ensures r != Nothing ==> Value() == old(Value()) && sudoPassword != None && now <= sudoExpiresAt
    {
      if sudoPassword.None? {
        return Nothing;
      }
      if now > sudoExpiresAt {
        ClearSudoCache();
        return Nothing;
      }
      var key := GetEncryptionKey();
      match Open(key, sudoPassword.value) {
        case None =>
          ClearSudoCache();
          return Nothing;
        case Some(reading) =>
          return reading;
      }
    }

    method ClearSudoCache()
      modifies this`sudoPassword, this`sudoExpiresAt, this`sudoCacheKey
      ensures Value() == Step(old(Value()), Clear)
      ensures sudoPassword == None && sudoCacheKey == None && sudoExpiresAt == 0
    {
      sudoPassword, sudoCacheKey, sudoExpiresAt := None, None, 0;
    }

    method NegotiateSharedKey(id: string, secret: K, ttl: int, now: int)
      modifies this`sharedKeyCache, this`sudoCacheKey
      ensures Value() == Step(old(Value()), Negotiate(id, secret, ttl, now))
      ensures id in sharedKeyCache && sharedKeyCache == old(sharedKeyCache)[id := sharedKeyCache[id]]
      ensures sharedKeyCache[id] == Entry(secret, if ttl > 0 then now + ttl else now + 900_000_000_000)
      ensures sudoCacheKey == if id == "sudo" then Some(secret) else old(sudoCacheKey)
    {
      var life := ttl;
      if life <= 0 {
        life := DEFAULT_TTL;
      }
      sharedKeyCache := sharedKeyCache[id := Entry(secret, now + life)];
      if id == SUDO {
        sudoCacheKey := Some(secret);
      }
    }

    /** A shared key is handed out until it expires; asking later drops it. */
    method GetSharedKey(id: string, now: int) returns (key: Option<K>)
      modifies this`sharedKeyCache
      ensures Value() == Step(old(Value()), ReadShared(id, now))
      ensures key.Some? <==> id in old(sharedKeyCache) && now <= old(sharedKeyCache)[id].expiresAt
      ensures key.Some? ==> key.value == old(sharedKeyCache)[id].secret
      ensures sharedKeyCache == if id in old(sharedKeyCache) && old(sharedKeyCache)[id].expiresAt < now then old(sharedKeyCache) - {id}
                                else old(sharedKeyCache)
    {
      if id !in sharedKeyCache {
        return None;
      }
      var entry := sharedKeyCache[id];
      if now > entry.expiresAt {
        sharedKeyCache := sharedKeyCache - {id};
        return None;
      }
      key := Some(entry.secret);
    }

    method StartShell(starts: bool) returns (ok: bool)
      modifies this`shell
      ensures Value() == Step(old(Value()), EnsureShell(starts))
      ensures ok <==> !finalized && (old(shell) || starts)
      ensures shell == (old(shell) || ok)
    {
      if finalized {
        return false;
      }
      if !shell {
        if !starts {
          return false;
        }
        shell := true;
      }
      ok := true;
    }

    /** Password, keys and shell are gone. */
    method FinalizeSession()
      modifies this
      ensures Value() == Step(old(Value()), Finalize)
      ensures finalized && !shell && sudoPassword == None && sudoCacheKey == None && sudoExpiresAt == 0 && sharedKeyCache == map[]
    {
      finalized := true;
      sudoPassword, sudoCacheKey, sudoExpiresAt := None, None, 0;
      sharedKeyCache := map[];
      shell := false;
    }
  }
}
