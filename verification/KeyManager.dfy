/**
 The key manager's own code over the key store: createKeyOnce, revokeKeyOnce and their retry loops,
 with other managers' steps arriving between any two API calls. Each method is proved to take exactly
 the steps of KeyStore, so KeyStore's results about runs hold of it.
 */
module KeyManager {
  import opened Common
  import opened ClientIds
  import opened KeyStore

  /** Whether an action belongs to one of the attempts in mine. */
  predicate ActsFor(act: Action, mine: set<nat>) { !act.Tick? && act.a in mine }

  ghost predicate Others(acts: seq<Action>, mine: set<nat>) {
    forall act :: act in acts ==> !ActsFor(act, mine)
  }

  ghost predicate SameAttempts(s: State, t: State, mine: set<nat>) {
    forall b :: b in mine ==>
      (b in s.attempts <==> b in t.attempts) && (b in s.attempts ==> s.attempts[b] == t.attempts[b])
  }

  lemma OthersLeaveAttempts(h: Digest, s: State, act: Action, mine: set<nat>)
    requires !ActsFor(act, mine)
    ensures SameAttempts(s, Apply(h, s, act), mine)
  {
  }

  ghost predicate Later(s: State, t: State) {
    s.returned <= t.returned && s.removed <= t.removed && s.model == t.model && s.namespace == t.namespace
  }

  lemma RunNext(h: Digest, s: State, acts: seq<Action>, act: Action)
    ensures Run(h, s, acts + [act]) == Apply(h, Run(h, s, acts), act)
  {
    assert (acts + [act])[..|acts|] == acts;
  }

  lemma StepIsLater(h: Digest, s: State, act: Action)
    ensures Later(s, Apply(h, s, act))
  {
  }

  // ---- What the steps of an attempt were ----

  datatype History = History(h: Digest, start: State, trace: seq<Action>)

  /** The state before step n. */
  ghost function Past(x: History, n: nat): State
    requires n <= |x.trace|
  {
    At(x.h, x.start, x.trace, n)
  }

  /** Step n, not before from, is act. */
  ghost predicate Step(x: History, from: nat, n: nat, act: Action) { from <= n < |x.trace| && x.trace[n] == act }

  /** Attempt a read this Secret, and this ConfigMap. */
  ghost predicate ReadsSecret(x: History, from: nat, a: nat, obj: Versioned<string>) {
    exists n: nat :: Step(x, from, n, ReadSecret(a)) && Past(x, n).secret == obj
  }

  ghost predicate ReadsMeta(x: History, from: nat, a: nat, obj: Versioned<Entry>) {
    exists n: nat :: Step(x, from, n, ReadMeta(a)) && Past(x, n).meta == obj
  }

  /** Attempt a found no such ID in the Secret it read. */
  ghost predicate ReadsWithout(x: History, from: nat, a: nat, id: string) {
    exists obj :: ReadsSecret(x, from, a, obj) && id !in obj.data
  }

  /** An object attempt a updates has another version than the one it read: somebody else was faster. */
  ghost predicate SecretMoved(x: History, from: nat, a: nat) {
    exists n: nat, obj :: Step(x, from, n, WriteSecret(a)) && ReadsSecret(x, from, a, obj)
                          && Past(x, n).secret.version != obj.version
  }

  ghost predicate MetaMoved(x: History, from: nat, a: nat) {
    exists n: nat, obj :: Step(x, from, n, WriteMeta(a)) && ReadsMeta(x, from, a, obj)
                          && Past(x, n).meta.version != obj.version
  }

  /** Step n is attempt a's update of the Secret it read to data. */
  ghost predicate Updates(x: History, from: nat, a: nat, n: nat, obj: Versioned<string>, data: map<string, string>) {
    && Step(x, from, n, WriteSecret(a)) && ReadsSecret(x, from, a, obj)
    && Past(x, n).secret.version == obj.version && Past(x, n + 1).secret == Versioned(obj.version + 1, data)
  }

  /** Attempt a put this new credential in, and took one out. */
  ghost predicate Stores(x: History, from: nat, a: nat, id: string, key: string) {
    exists n: nat, obj: Versioned<string> :: StoresAt(x, from, a, n, obj, id, key)
  }

  ghost predicate StoresAt(x: History, from: nat, a: nat, n: nat, obj: Versioned<string>, id: string, key: string) {
    id !in obj.data && Updates(x, from, a, n, obj, obj.data[id := key])
  }

  ghost predicate Removes(x: History, from: nat, a: nat, id: string) {
    exists n: nat, obj: Versioned<string> :: id in obj.data && Updates(x, from, a, n, obj, obj.data - {id})
  }

  ghost predicate Continues(x: History, y: History) { x.h == y.h && x.start == y.start && x.trace <= y.trace }

  lemma PastStays(x: History, y: History, from: nat, n: nat)
    requires Continues(x, y) && n <= |x.trace|
    ensures Past(y, n) == Past(x, n)
    ensures forall act :: Step(x, from, n, act) ==> Step(y, from, n, act) && Past(y, n + 1) == Past(x, n + 1)
  {
    assert x.trace[..n] == y.trace[..n];
    if n < |x.trace| { assert x.trace[..n + 1] == y.trace[..n + 1]; }
  }

  lemma ReadsStay(x: History, y: History, from: nat, a: nat)
    requires Continues(x, y)
    ensures forall obj :: ReadsSecret(x, from, a, obj) ==> ReadsSecret(y, from, a, obj)
    ensures forall obj :: ReadsMeta(x, from, a, obj) ==> ReadsMeta(y, from, a, obj)
  {
    hide Past, Continues;
    forall obj | ReadsSecret(x, from, a, obj) ensures ReadsSecret(y, from, a, obj) {
      var n: nat :| Step(x, from, n, ReadSecret(a)) && Past(x, n).secret == obj;
      PastStays(x, y, from, n);
    }
    forall obj | ReadsMeta(x, from, a, obj) ensures ReadsMeta(y, from, a, obj) {
      var n: nat :| Step(x, from, n, ReadMeta(a)) && Past(x, n).meta == obj;
      PastStays(x, y, from, n);
    }
  }

  lemma UpdatesStay(x: History, y: History, from: nat, a: nat, n: nat, obj: Versioned<string>,
                    data: map<string, string>)
    requires Continues(x, y) && Updates(x, from, a, n, obj, data)
    ensures Updates(y, from, a, n, obj, data)
  {
    ReadsStay(x, y, from, a);
    PastStays(x, y, from, n);
    hide Past, ReadsSecret;
  }

  lemma WritesStay(x: History, y: History, from: nat, a: nat, id: string)
    requires Continues(x, y)
    ensures forall key :: Stores(x, from, a, id, key) ==> Stores(y, from, a, id, key)
    ensures Removes(x, from, a, id) ==> Removes(y, from, a, id)
  {
    hide Updates, Continues;
    forall key | Stores(x, from, a, id, key) ensures Stores(y, from, a, id, key) {
      var n: nat, obj: Versioned<string> :| StoresAt(x, from, a, n, obj, id, key);
      UpdatesStay(x, y, from, a, n, obj, obj.data[id := key]);
      assert StoresAt(y, from, a, n, obj, id, key);
    }
    if Removes(x, from, a, id) {
      var n: nat, obj: Versioned<string> :| id in obj.data && Updates(x, from, a, n, obj, obj.data - {id});
      UpdatesStay(x, y, from, a, n, obj, obj.data - {id});
    }
  }

  lemma MovesStay(x: History, y: History, from: nat, a: nat)
    requires Continues(x, y)
    ensures SecretMoved(x, from, a) ==> SecretMoved(y, from, a)
    ensures MetaMoved(x, from, a) ==> MetaMoved(y, from, a)
  {
    ReadsStay(x, y, from, a);
    hide ReadsSecret, ReadsMeta;
    if SecretMoved(x, from, a) {
      var n: nat, obj :| Step(x, from, n, WriteSecret(a)) && ReadsSecret(x, from, a, obj)
                         && Past(x, n).secret.version != obj.version;
      PastStays(x, y, from, n);
    }
    if MetaMoved(x, from, a) {
      var n: nat, obj :| Step(x, from, n, WriteMeta(a)) && ReadsMeta(x, from, a, obj)
                         && Past(x, n).meta.version != obj.version;
      PastStays(x, y, from, n);
    }
  }

  /** y is x and one more step. */
  ghost predicate EndsWith(x: History, y: History, act: Action) {
    x.h == y.h && x.start == y.start && y.trace == x.trace + [act]
  }

  /** The last step was attempt a's update of the Secret it read: it came too late, or wrote its data. */
  lemma SecretUpdated(x: History, y: History, from: nat, a: nat, obj: Versioned<string>, data: map<string, string>)
    requires EndsWith(x, y, WriteSecret(a)) && ReadsSecret(x, from, a, obj)
    requires Past(y, |x.trace|).secret.version == obj.version ==>
               Past(y, |y.trace|).secret == Versioned(obj.version + 1, data)
    ensures if Past(y, |x.trace|).secret.version == obj.version then Updates(y, from, a, |x.trace|, obj, data)
            else SecretMoved(y, from, a)
  {
    ReadsStay(x, y, from, a);
    assert Step(y, from, |x.trace|, WriteSecret(a));
    hide Past, ReadsSecret;
  }

  lemma MetaUpdateLost(x: History, y: History, from: nat, a: nat, obj: Versioned<Entry>)
    requires EndsWith(x, y, WriteMeta(a)) && ReadsMeta(x, from, a, obj)
    requires Past(y, |x.trace|).meta.version != obj.version
    ensures MetaMoved(y, from, a)
  {
    ReadsStay(x, y, from, a);
    assert Step(y, from, |x.trace|, WriteMeta(a));
    hide Past, ReadsMeta;
  }

  // ---- The API server ----

  /** fmt's %q, and what the API server says of an update whose version is not current. */
  datatype Texts = Texts(quote: string -> string, conflict: string)

  /** The API server's two objects for one model, and the steps taken on them since start. */
  class Cluster {
    const h: Digest
    const text: Texts
    ghost const start: State
    var st: State
    ghost var trace: seq<Action>

    constructor (h: Digest, text: Texts, s: State)
      ensures Valid() && this.h == h && this.text == text && start == s && st == s && trace == []
    {
      this.h, this.text, this.start, this.st, this.trace := h, text, s, s, [];
    }

    ghost predicate Valid() reads this { st == Run(h, start, trace) }

    ghost function Log(): History
      reads this
    {
      History(h, start, trace)
    }

    function Naming(): Words
      reads this
    {
      Words(text, st.model)
    }

    /** Any step, this manager's or another's. */
    method Do(act: Action)
      requires Valid()
      modifies this
      ensures Valid() && trace == old(trace) + [act] && st == Apply(h, old(st), act) && Later(old(st), st)
      ensures Past(Log(), |old(trace)|) == old(st) && Past(Log(), |trace|) == st
    {
      hide Run, Apply, Later;
      StepIsLater(h, st, act);
      RunNext(h, start, trace, act);
      ghost var before := trace;
      st := Apply(h, st, act);
      trace := trace + [act];
      assert trace[..|before|] == before && trace[..|trace|] == trace;
    }

    /** Steps of others, who never act for the attempts in mine. */
    method Interleave(acts: seq<Action>, ghost mine: set<nat>)
      requires Valid() && Others(acts, mine)
      modifies this
      ensures Valid() && trace == old(trace) + acts && Later(old(st), st) && SameAttempts(old(st), st, mine)
      ensures acts == [] ==> st == old(st)
    {
      hide Run, Apply, ActsFor;
      for i := 0 to |acts|
        invariant Valid() && trace == old(trace) + acts[..i] && Later(old(st), st) && SameAttempts(old(st), st, mine)
      {
        OthersLeaveAttempts(h, st, acts[i], mine);
        Do(acts[i]);
        assert acts[..i + 1] == acts[..i] + [acts[i]];
      }
      assert acts[..|acts|] == acts;
    }

    method GetSecret(a: nat) returns (obj: Versioned<string>)
      requires Valid() && a in st.attempts
      modifies this
      ensures Valid() && trace == old(trace) + [ReadSecret(a)] && st == DoReadSecret(old(st), a) && Later(old(st), st)
      ensures obj == old(st).secret && Past(Log(), |old(trace)|) == old(st)
    {
      obj := st.secret;
      Do(ReadSecret(a));
    }

    method GetConfigMap(a: nat) returns (obj: Versioned<Entry>)
      requires Valid() && a in st.attempts
      modifies this
      ensures Valid() && trace == old(trace) + [ReadMeta(a)] && st == DoReadMeta(old(st), a) && Later(old(st), st)
      ensures obj == old(st).meta && Past(Log(), |old(trace)|) == old(st)
    {
      obj := st.meta;
      Do(ReadMeta(a));
    }

    /** The API server's compare-and-swap on the Secret; obj is what attempt a sends. */
    method UpdateSecret(a: nat, obj: Versioned<string>) returns (ok: bool)
      requires Valid() && a in st.attempts
      requires DoWriteSecret(st, a).secret ==
               if obj.version == st.secret.version then Versioned(obj.version + 1, obj.data) else st.secret
      modifies this
      ensures Valid() && trace == old(trace) + [WriteSecret(a)] && st == DoWriteSecret(old(st), a) && Later(old(st), st)
      ensures ok <==> obj.version == old(st).secret.version
      ensures st.secret == if ok then Versioned(obj.version + 1, obj.data) else old(st).secret
      ensures Past(Log(), |old(trace)|) == old(st) && Past(Log(), |trace|) == st
    {
      ok := obj.version == st.secret.version;
      Do(WriteSecret(a));
    }

    /** The API server's compare-and-swap on the ConfigMap; obj is what attempt a sends. */
    method UpdateConfigMap(a: nat, obj: Versioned<Entry>) returns (ok: bool)
      requires Valid() && a in st.attempts
      requires DoWriteMeta(st, a).meta ==
               if obj.version == st.meta.version then Versioned(obj.version + 1, obj.data) else st.meta
      modifies this
      ensures Valid() && trace == old(trace) + [WriteMeta(a)] && st == DoWriteMeta(old(st), a) && Later(old(st), st)
      ensures ok <==> obj.version == old(st).meta.version
      ensures st.meta == if ok then Versioned(obj.version + 1, obj.data) else old(st).meta
      ensures Past(Log(), |old(trace)|) == old(st) && Past(Log(), |trace|) == st
    {
      ok := obj.version == st.meta.version;
      Do(WriteMeta(a));
    }

    /** Opens attempt a. */
    method Begin(act: Action, a: nat)
      requires Valid() && a !in st.attempts
      requires (act.StartCreate? && act.a == a && act.creator.username != "") || (act.StartRevoke? && act.a == a)
      modifies this
      ensures Valid() && trace == old(trace) + [act] && Later(old(st), st) && Resting(old(st), st)
      ensures a in st.attempts && st.attempts == old(st).attempts[a := st.attempts[a]]
      ensures st.attempts[a] ==
                if act.StartCreate? then CreateStarted(act.creator, act.description) else RevokeStarted(act.id)
    {
      Do(act);
    }

    method DrawOne(a: nat, suffix: string, key: string)
      requires Valid() && a in st.attempts
      modifies this
      ensures Valid() && trace == old(trace) + [Draw(a, suffix, key)] && st == DoDraw(h, old(st), a, suffix, key)
              && Later(old(st), st)
    {
      Do(Draw(a, suffix, key));
    }

    /** Takes the time a tombstone will carry. */
    method TakeStamp(a: nat) returns (now: int)
      requires Valid() && a in st.attempts
      modifies this
      ensures Valid() && trace == old(trace) + [Stamp(a)] && st == DoStamp(old(st), a) && Later(old(st), st)
      ensures now == old(st).now && Past(Log(), |old(trace)|) == old(st)
    {
      now := st.now;
      Do(Stamp(a));
    }
  }

  // ---- Errors, told apart by their text ----

  predicate OccursAt(s: string, sub: string, i: int) {
    0 <= i <= |s| - |sub| && s[i..i + |sub|] == sub
  }

  /** strings.Contains. */
  predicate Contains(s: string, sub: string) {
    exists i :: 0 <= i <= |s| && OccursAt(s, sub, i)
  }

  predicate IsConflict(err: string) { Contains(err, "conflict") || Contains(err, "409") }

  const MAX_RETRIES := 3

  /** Words with a space between any two. */
  function Sentence(words: seq<string>): string
    requires words != []
  {
    if |words| == 1 then words[0] else words[0] + [' '] + Sentence(words[1..])
  }

  function NotFoundError(text: Texts, id: string, model: string): string {
    Sentence(["key", text.quote(id), "not", "found", "for", "model", model])
  }

  const SECRET := "Secret"
  const CONFIG_MAP := "ConfigMap"

  function UpdateError(what: string, model: string, cause: string): string {
    Sentence(["updating", what, "for", "model", model + ":", cause])
  }

  function ReadError(what: seq<string>, model: string, cause: string): string {
    Sentence(["API", "key"] + what
             + ["not", "found", "for", "model", model, "-", "has", "the", "operator", "created", "it?:", cause])
  }

  lemma ContainsInFront(a: string, sep: char, b: string, sub: string)
    requires Contains(a, sub)
    ensures Contains(a + [sep] + b, sub)
  {
    var s := a + [sep] + b;
    var i :| 0 <= i <= |a| && OccursAt(a, sub, i);
    assert s[i..i + |sub|] == a[i..i + |sub|];
    assert OccursAt(s, sub, i);
  }

  lemma ContainsBehind(a: string, sep: char, b: string, sub: string)
    requires Contains(b, sub)
    ensures Contains(a + [sep] + b, sub)
  {
    var s := a + [sep] + b;
    var i :| 0 <= i <= |b| && OccursAt(b, sub, i);
    assert s[|a| + 1 + i..|a| + 1 + i + |sub|] == b[i..i + |sub|];
    assert OccursAt(s, sub, |a| + 1 + i);
  }

  lemma OccursOnOneSide(a: string, sep: char, b: string, sub: string, i: int)
    requires sep !in sub && sub != "" && OccursAt(a + [sep] + b, sub, i)
    ensures Contains(a, sub) || Contains(b, sub)
  {
    var s := a + [sep] + b;
    forall p | i <= p < i + |sub| ensures s[p] in sub {
      assert s[i..i + |sub|][p - i] == s[p] && sub[p - i] in sub;
    }
    assert s[|a|] == sep;
    if i > |a| {
      assert b[i - |a| - 1..i - |a| - 1 + |sub|] == s[i..i + |sub|];
      assert OccursAt(b, sub, i - |a| - 1);
    } else {
      assert i + |sub| <= |a|;
      assert a[i..i + |sub|] == s[i..i + |sub|];
      assert OccursAt(a, sub, i);
    }
  }

  /** A text without the separator is in two texts joined by it exactly when it is in one of them. */
  lemma ContainsAcross(a: string, sep: char, b: string, sub: string)
    requires sep !in sub && sub != ""
    ensures Contains(a + [sep] + b, sub) <==> Contains(a, sub) || Contains(b, sub)
  {
    if Contains(a, sub) { ContainsInFront(a, sep, b, sub); }
    if Contains(b, sub) { ContainsBehind(a, sep, b, sub); }
    if Contains(a + [sep] + b, sub) {
      var i :| 0 <= i <= |a + [sep] + b| && OccursAt(a + [sep] + b, sub, i);
      OccursOnOneSide(a, sep, b, sub, i);
    }
    hide OccursAt;
  }

  lemma ConflictAcross(a: string, sep: char, b: string)
    requires sep == ' ' || sep == ':' || sep == '"'
    ensures IsConflict(a + [sep] + b) <==> IsConflict(a) || IsConflict(b)
  {
    ContainsAcross(a, sep, b, "conflict");
    ContainsAcross(a, sep, b, "409");
    hide Contains;
  }

  ghost predicate SomeConflict(words: seq<string>) { exists w :: w in words && IsConflict(w) }

  lemma {:induction false} SentenceConflict(words: seq<string>)
    requires words != []
    ensures IsConflict(Sentence(words)) <==> SomeConflict(words)
  {
    hide IsConflict;
    if |words| > 1 {
      ConflictAcross(words[0], ' ', Sentence(words[1..]));
      SentenceConflict(words[1..]);
      assert forall w :: w in words <==> w == words[0] || w in words[1..];
    } else {
      assert words[0] in words;
    }
  }

  predicate IsPlain(w: string) { (|w| < 8 || 'c' !in w) && '4' !in w }

  lemma PlainIsNoConflict(w: string)
    requires IsPlain(w)
    ensures !IsConflict(w)
  {
    forall i | 0 <= i <= |w| ensures !OccursAt(w, "conflict", i) && !OccursAt(w, "409", i) {
      if i <= |w| - 8 {
        assert w[i] in w;
        assert w[i..i + 8][0] == w[i] && "conflict"[0] == 'c';
      }
      if i <= |w| - 3 {
        assert w[i] in w;
        assert w[i..i + 3][0] == w[i] && "409"[0] == '4';
      }
    }
  }

  lemma WithColon(model: string)
    ensures IsConflict(model + ":") <==> IsConflict(model)
  {
    ConflictAcross(model, ':', "");
    PlainIsNoConflict("");
    assert model + [':'] + "" == model + ":";
  }

  lemma Quoted(id: string)
    ensures IsConflict("\"" + id + "\"") <==> IsConflict(id)
  {
    ConflictAcross("", '"', id + "\"");
    ConflictAcross(id, '"', "");
    PlainIsNoConflict("");
    assert "" + ['"'] + (id + "\"") == "\"" + id + "\"" && id + ['"'] + "" == id + "\"";
  }

  /**
   Exactly when revoking an unknown key is taken for a conflict and tried again: when the ID as quoted, or
   the model's name, contains "conflict" or "409". An ID quoted as it is may contain them itself.
   */
  lemma UnknownKeyCanLookLikeConflict(text: Texts, id: string, model: string)
    ensures IsConflict(NotFoundError(text, id, model)) <==> IsConflict(text.quote(id)) || IsConflict(model)
    ensures text.quote(id) == "\"" + id + "\"" ==> (IsConflict(text.quote(id)) <==> IsConflict(id))
  {
    var words := ["key", text.quote(id), "not", "found", "for", "model", model];
    SentenceConflict(words);
    Quoted(id);
    PlainIsNoConflict("key");
    PlainIsNoConflict("not");
    PlainIsNoConflict("found");
    PlainIsNoConflict("for");
    PlainIsNoConflict("model");
    assert words[1] in words && words[6] in words;
    hide IsConflict;
  }

  /** Exactly when a failed update is retried: its cause, or the model's name, contains "conflict" or "409". */
  lemma UpdateErrorIsConflictExactly(what: string, model: string, cause: string)
    requires what == SECRET || what == CONFIG_MAP
    ensures IsConflict(UpdateError(what, model, cause)) <==> IsConflict(model) || IsConflict(cause)
  {
    var words := ["updating", what, "for", "model", model + ":", cause];
    SentenceConflict(words);
    WithColon(model);
    PlainIsNoConflict("updating");
    PlainIsNoConflict(SECRET);
    PlainIsNoConflict(CONFIG_MAP);
    PlainIsNoConflict("for");
    PlainIsNoConflict("model");
    assert words[4] in words && words[5] in words;
    hide IsConflict;
  }

  lemma ReadErrorNamesModel(what: seq<string>, model: string, cause: string)
    requires IsConflict(model)
    ensures IsConflict(ReadError(what, model, cause))
  {
    var words := ["API", "key"] + what
                 + ["not", "found", "for", "model", model, "-", "has", "the", "operator", "created", "it?:", cause];
    SentenceConflict(words);
    assert words[|what| + 6] == model && model in words;
    hide IsConflict;
  }

  // ---- The surroundings of an attempt ----

  /** The API call of an attempt that fails, if one does: without effect, or applied and its answer lost. */
  datatype Fault = NoFault | GetSecretFails | GetConfigMapFails | SecretUpdateFails | SecretAnswerLost
    | ConfigMapUpdateFails | ConfigMapAnswerLost

  /** Others' steps before each API call and before a tombstone's time is taken; the failing call and its error. */
  datatype Schedule = Schedule(
    beforeReadSecret: seq<Action>, beforeReadMeta: seq<Action>, beforeWriteSecret: seq<Action>,
    beforeStamp: seq<Action>, beforeWriteMeta: seq<Action>, fault: Fault, cause: string)

  ghost predicate ForOthers(env: Schedule, mine: set<nat>) {
    && Others(env.beforeReadSecret, mine) && Others(env.beforeReadMeta, mine)
    && Others(env.beforeWriteSecret, mine) && Others(env.beforeStamp, mine) && Others(env.beforeWriteMeta, mine)
  }

  /** The objects and the clock are as they were. */
  predicate Resting(s: State, t: State) {
    t.secret == s.secret && t.meta == s.meta && t.now == s.now && t.model == s.model && t.namespace == s.namespace
  }

  // ---- Why an attempt fails ----

  /** Whose keys, and what errors say of it. */
  datatype Words = Words(text: Texts, model: string)

  /** Reading failed. */
  predicate ReadFailed(w: Words, env: Schedule, error: string) {
    || (env.fault.GetSecretFails? && error == ReadError(["secret"], w.model, env.cause))
    || (env.fault.GetConfigMapFails? && error == ReadError(["metadata", CONFIG_MAP], w.model, env.cause))
  }

  /** Updating the Secret failed: somebody was faster, or the call failed, or it was done and its answer lost. */
  ghost predicate SecretFailed(x: History, w: Words, from: nat, a: nat, env: Schedule, done: bool, error: string) {
    || (SecretMoved(x, from, a) && error == UpdateError(SECRET, w.model, w.text.conflict))
    || (env.fault.SecretUpdateFails? && error == UpdateError(SECRET, w.model, env.cause))
    || (env.fault.SecretAnswerLost? && done && error == UpdateError(SECRET, w.model, env.cause))
  }

  /** Updating the ConfigMap failed. */
  ghost predicate MetaFailed(x: History, w: Words, from: nat, a: nat, env: Schedule, error: string) {
    || (MetaMoved(x, from, a) && error == UpdateError(CONFIG_MAP, w.model, w.text.conflict))
    || ((env.fault.ConfigMapUpdateFails? || env.fault.ConfigMapAnswerLost?)
        && error == UpdateError(CONFIG_MAP, w.model, env.cause))
  }

  /** Every failed call's error names the model. */
  lemma FailureNamesModel(x: History, w: Words, from: nat, a: nat, env: Schedule, done: bool, error: string)
    requires ReadFailed(w, env, error) || SecretFailed(x, w, from, a, env, done, error)
             || MetaFailed(x, w, from, a, env, error)
    requires IsConflict(w.model)
    ensures IsConflict(error)
  {
    UpdateErrorIsConflictExactly(SECRET, w.model, w.text.conflict);
    UpdateErrorIsConflictExactly(SECRET, w.model, env.cause);
    UpdateErrorIsConflictExactly(CONFIG_MAP, w.model, w.text.conflict);
    UpdateErrorIsConflictExactly(CONFIG_MAP, w.model, env.cause);
    ReadErrorNamesModel(["secret"], w.model, env.cause);
    ReadErrorNamesModel(["metadata", CONFIG_MAP], w.model, env.cause);
    hide IsConflict, UpdateError, ReadError;
  }

  // ---- The calls of an attempt ----

  /** An attempt with the Secret read, and with both objects. */
  function WithSecret(t: Attempt, secret: Versioned<string>): Attempt {
    match t
    case CreateStarted(creator, description) => CreateReadSecret(creator, description, secret)
    case RevokeStarted(id) => RevokeReadSecret(id, secret)
    case _ => t
  }

  function WithBoth(t: Attempt, secret: Versioned<string>, cm: Versioned<Entry>): Attempt {
    match t
    case CreateStarted(creator, description) => CreateReadMeta(creator, description, secret, cm)
    case RevokeStarted(id) => RevokeReadMeta(id, secret, cm)
    case _ => t
  }

  method FetchSecret(c: Cluster, a: nat, ghost from: nat, ghost mine: set<nat>, env: Schedule)
    returns (r: Result<Versioned<string>>)
    requires c.Valid() && a in mine && from <= |c.trace| && Others(env.beforeReadSecret, mine)
    requires a in c.st.attempts && (c.st.attempts[a].CreateStarted? || c.st.attempts[a].RevokeStarted?)
    modifies c
    ensures c.Valid() && old(c.trace) <= c.trace && Later(old(c.st), c.st) && SameAttempts(old(c.st), c.st, mine - {a})
    ensures if env.fault.GetSecretFails?
            then r == Err(ReadError(["secret"], c.st.model, env.cause))
            else r.Ok? && a in c.st.attempts && c.st.attempts[a] == WithSecret(old(c.st).attempts[a], r.value)
                 && ReadsSecret(c.Log(), from, a, r.value)
    ensures r.Ok? ==> c.trace == old(c.trace) + env.beforeReadSecret + [ReadSecret(a)]
    ensures r.Ok? && env.beforeReadSecret == [] ==> r.value == old(c.st).secret && Resting(old(c.st), c.st)
  {
    hide Run, Apply, Others, ReadError, Past;
    c.Interleave(env.beforeReadSecret, mine);
    if env.fault.GetSecretFails? { return Err(ReadError(["secret"], c.st.model, env.cause)); }
    ghost var n := |c.trace|;
    var secret := c.GetSecret(a);
    assert Step(c.Log(), from, n, ReadSecret(a));
    r := Ok(secret);
  }

  method FetchConfigMap(c: Cluster, a: nat, ghost from: nat, ghost mine: set<nat>, env: Schedule)
    returns (r: Result<Versioned<Entry>>)
    requires c.Valid() && a in mine && from <= |c.trace| && Others(env.beforeReadMeta, mine)
    requires a in c.st.attempts && (c.st.attempts[a].CreateReadSecret? || c.st.attempts[a].RevokeReadSecret?)
    modifies c
    ensures c.Valid() && old(c.trace) <= c.trace && Later(old(c.st), c.st) && SameAttempts(old(c.st), c.st, mine - {a})
    ensures if env.fault.GetConfigMapFails?
            then r == Err(ReadError(["metadata", CONFIG_MAP], c.st.model, env.cause))
            else r.Ok? && a in c.st.attempts && ReadsMeta(c.Log(), from, a, r.value)
                 && match old(c.st).attempts[a]
                    case CreateReadSecret(creator, description, secret) =>
                      c.st.attempts[a] == CreateReadMeta(creator, description, secret, r.value)
                    case RevokeReadSecret(id, secret) => c.st.attempts[a] == RevokeReadMeta(id, secret, r.value)
                    case _ => true
    ensures r.Ok? ==> c.trace == old(c.trace) + env.beforeReadMeta + [ReadMeta(a)]
    ensures r.Ok? && env.beforeReadMeta == [] ==> r.value == old(c.st).meta && Resting(old(c.st), c.st)
  {
    hide Run, Apply, Others, ReadError, Past;
    c.Interleave(env.beforeReadMeta, mine);
    if env.fault.GetConfigMapFails? { return Err(ReadError(["metadata", CONFIG_MAP], c.st.model, env.cause)); }
    ghost var n := |c.trace|;
    var cm := c.GetConfigMap(a);
    assert Step(c.Log(), from, n, ReadMeta(a));
    r := Ok(cm);
  }

  /** The two reads an attempt starts with. */
  method ReadBoth(c: Cluster, a: nat, ghost from: nat, ghost mine: set<nat>, env: Schedule)
    returns (r: Result<(Versioned<string>, Versioned<Entry>)>)
    requires c.Valid() && a in mine && from <= |c.trace| && ForOthers(env, mine)
    requires a in c.st.attempts && (c.st.attempts[a].CreateStarted? || c.st.attempts[a].RevokeStarted?)
    modifies c
    ensures c.Valid() && old(c.trace) <= c.trace && Later(old(c.st), c.st) && SameAttempts(old(c.st), c.st, mine - {a})
    ensures r.Ok? ==> a in c.st.attempts && c.st.attempts[a] == WithBoth(old(c.st).attempts[a], r.value.0, r.value.1)
    ensures r.Ok? ==> ReadsSecret(c.Log(), from, a, r.value.0) && ReadsMeta(c.Log(), from, a, r.value.1)
    ensures r.Ok? <==> !env.fault.GetSecretFails? && !env.fault.GetConfigMapFails?
    ensures r.Err? ==> ReadFailed(c.Naming(), env, r.error)
    ensures r.Ok? && env.beforeReadSecret == env.beforeReadMeta == [] ==>
              r.value == (old(c.st).secret, old(c.st).meta) && Resting(old(c.st), c.st)
  {
    hide Run, Others, ReadError, ReadsSecret, ReadsMeta;
    var secret := FetchSecret(c, a, from, mine, env);
    if secret.Err? { return Err(secret.error); }
    ghost var x := c.Log();
    var cm := FetchConfigMap(c, a, from, mine, env);
    if cm.Err? { return Err(cm.error); }
    ReadsStay(x, c.Log(), from, a);
    r := Ok((secret.value, cm.value));
  }

  /** What an attempt sends as the Secret's data, and its state when that was done. */
  predicate Sends(t: Attempt, secret: Versioned<string>, data: map<string, string>) {
    match t
    case CreateDrawn(_, _, sec, _, id, key) => sec == secret && data == secret.data[id := key]
    case RevokeReadMeta(id, sec, _) => sec == secret && id in secret.data && data == secret.data - {id}
    case _ => false
  }

  function AfterSecret(t: Attempt): Attempt {
    match t
    case CreateDrawn(creator, description, _, cm, id, key) => CreateWroteSecret(creator, description, cm, id, key)
    case RevokeReadMeta(id, _, cm) => RevokeWroteSecret(id, cm)
    case _ => t
  }

  /** Nobody else acts during the attempt, and no call of it fails. */
  ghost predicate Quiet(env: Schedule) {
    && env.beforeReadSecret == env.beforeReadMeta == env.beforeWriteSecret == [] && env.beforeStamp == []
    && env.beforeWriteMeta == [] && env.fault.NoFault?
  }

  /** The update of the Secret. */
  method SendSecret(c: Cluster, a: nat, ghost from: nat, ghost mine: set<nat>, secret: Versioned<string>,
                    data: map<string, string>, env: Schedule)
    returns (r: Result<()>)
    requires c.Valid() && a in mine
    requires a in c.st.attempts && Sends(c.st.attempts[a], secret, data) && ReadsSecret(c.Log(), from, a, secret)
    modifies c
    ensures c.Valid() && old(c.trace) <= c.trace && Later(old(c.st), c.st) && SameAttempts(old(c.st), c.st, mine - {a})
    ensures r.Ok? ==> c.trace == old(c.trace) + [WriteSecret(a)]
    ensures r.Ok? ==> a in c.st.attempts && c.st.attempts[a] == AfterSecret(old(c.st).attempts[a])
    ensures r.Ok? && old(c.st).attempts[a].RevokeReadMeta? ==> old(c.st).attempts[a].id in c.st.removed
    ensures r.Ok? ==> exists n: nat :: Updates(c.Log(), from, a, n, secret, data)
    ensures r.Ok? ==> !env.fault.SecretUpdateFails? && !env.fault.SecretAnswerLost?
    ensures r.Err? ==>
              var done := exists n: nat :: Updates(c.Log(), from, a, n, secret, data);
              SecretFailed(c.Log(), c.Naming(), from, a, env, done, r.error)
    ensures Quiet(env) && secret == old(c.st).secret ==>
              r.Ok? && Resting(old(c.st).(secret := Versioned(secret.version + 1, data)), c.st)
  {
    hide Run, Apply, UpdateError, Past, SecretMoved, ReadsSecret;
    if env.fault.SecretUpdateFails? { return Err(UpdateError(SECRET, c.st.model, env.cause)); }
    ghost var x := c.Log();
    var ok := c.UpdateSecret(a, secret.(data := data));
    SecretUpdated(x, c.Log(), from, a, secret, data);
    hide Updates;
    if !ok { return Err(UpdateError(SECRET, c.st.model, c.text.conflict)); }
    if env.fault.SecretAnswerLost? { return Err(UpdateError(SECRET, c.st.model, env.cause)); }
    r := Ok(());
  }

  /** What an attempt sends as the ConfigMap's data. */
  predicate SendsMeta(s: State, t: Attempt, cm: Versioned<Entry>, data: map<string, Entry>) {
    match t
    case CreateWroteSecret(creator, description, cm', id, _) =>
      cm' == cm
      && data == cm.data[id := Readable(KeyInfo(id, creator, description, Seconds(s.now), s.model, s.namespace, None))]
    case RevokeStamped(id, cm', at) => cm' == cm && data == RevokedData(cm.data, id, Seconds(at))
    case _ => false
  }

  /** The update of the ConfigMap. */
  method SendConfigMap(c: Cluster, a: nat, ghost from: nat, ghost mine: set<nat>, cm: Versioned<Entry>,
                       data: map<string, Entry>, env: Schedule)
    returns (r: Result<()>)
    requires c.Valid() && a in mine
    requires a in c.st.attempts && SendsMeta(c.st, c.st.attempts[a], cm, data) && ReadsMeta(c.Log(), from, a, cm)
    modifies c
    ensures c.Valid() && old(c.trace) <= c.trace && Later(old(c.st), c.st) && SameAttempts(old(c.st), c.st, mine - {a})
    ensures r.Ok? ==> c.trace == old(c.trace) + [WriteMeta(a)] && Resting(old(c.st).(meta := c.st.meta), c.st)
    ensures r.Ok? ==> c.st.meta == Versioned(cm.version + 1, data)
    ensures r.Ok? && old(c.st).attempts[a].CreateWroteSecret? ==> old(c.st).attempts[a].id in c.st.returned
    ensures r.Ok? ==> !env.fault.ConfigMapUpdateFails? && !env.fault.ConfigMapAnswerLost?
    ensures r.Err? ==> MetaFailed(c.Log(), c.Naming(), from, a, env, r.error)
    ensures Quiet(env) && cm == old(c.st).meta ==> r.Ok?
  {
    hide Run, Apply, UpdateError, Past, MetaMoved, ReadsMeta, RevokedData;
    if env.fault.ConfigMapUpdateFails? { return Err(UpdateError(CONFIG_MAP, c.st.model, env.cause)); }
    ghost var x := c.Log();
    var ok := c.UpdateConfigMap(a, cm.(data := data));
    if !ok {
      MetaUpdateLost(x, c.Log(), from, a, cm);
      return Err(UpdateError(CONFIG_MAP, c.st.model, c.text.conflict));
    }
    if env.fault.ConfigMapAnswerLost? { return Err(UpdateError(CONFIG_MAP, c.st.model, env.cause)); }
    r := Ok(());
  }

  // ---- createKeyOnce ----

  datatype NewKey = NewKey(clientId: string, apiKey: string)

  predicate InUse(id: string, secret: Versioned<string>, cm: Versioned<Entry>) { id in secret.data || id in cm.data }

  /** The draw-again loop over the suffixes it would be given; running out is the random source failing. */
  method DrawClientId(c: Cluster, a: nat, ghost mine: set<nat>, creator: Owner, description: string,
                      secret: Versioned<string>, cm: Versioned<Entry>, draws: seq<string>, key: string)
    returns (drawn: bool, clientId: string)
    requires c.Valid() && a in mine && a in c.st.attempts
             && c.st.attempts[a] == CreateReadMeta(creator, description, secret, cm)
    requires forall d :: d in draws ==> IsSuffix(d)
    modifies c
    ensures c.Valid() && old(c.trace) <= c.trace && Later(old(c.st), c.st) && SameAttempts(old(c.st), c.st, mine - {a})
    ensures Resting(old(c.st), c.st)
    ensures drawn ==>
              a in c.st.attempts && c.st.attempts[a] == CreateDrawn(creator, description, secret, cm, clientId, key)
    ensures drawn ==> clientId !in secret.data && clientId !in cm.data
    ensures drawn ==> exists d :: d in draws && clientId == ClientId(c.h, creator.username, c.st.model, d)
    ensures !drawn ==> forall d :: d in draws ==> InUse(ClientId(c.h, creator.username, c.st.model, d), secret, cm)
  {
    hide Run, Apply, ClientId, Past;
    clientId, drawn := "", false;
    for i := 0 to |draws|
      invariant c.Valid() && old(c.trace) <= c.trace && Later(old(c.st), c.st)
                && SameAttempts(old(c.st), c.st, mine - {a}) && Resting(old(c.st), c.st)
      invariant !drawn && a in c.st.attempts && c.st.attempts[a] == CreateReadMeta(creator, description, secret, cm)
      invariant forall d :: d in draws[..i] ==> InUse(ClientId(c.h, creator.username, c.st.model, d), secret, cm)
    {
      clientId := ClientId(c.h, creator.username, c.st.model, draws[i]);
      c.DrawOne(a, draws[i], key);
      if !InUse(clientId, secret, cm) {
        drawn := true;
        return;
      }
      assert draws[..i + 1] == draws[..i] + [draws[i]];
    }
    assert draws[..|draws|] == draws;
  }

  function NoDraw(cause: string): string { "generating client ID: " + cause }

  /** Every suffix the attempt drew names a key in one of the objects it read. */
  ghost predicate DrawsUsed(x: History, model: string, from: nat, a: nat, creator: Owner, draws: seq<string>) {
    exists secret, cm ::
      && ReadsSecret(x, from, a, secret) && ReadsMeta(x, from, a, cm)
      && forall d :: d in draws ==> InUse(ClientId(x.h, creator.username, model, d), secret, cm)
  }

  /** Why an attempt to create failed: a call, a race, or no free ID among those drawn. */
  ghost predicate CreateFailed(x: History, w: Words, from: nat, a: nat, creator: Owner, draws: seq<string>,
                               key: string, env: Schedule, error: string)
  {
    || ReadFailed(w, env, error)
    || (DrawsUsed(x, w.model, from, a, creator, draws) && error == NoDraw(env.cause))
    || (exists id :: SecretFailed(x, w, from, a, env, Stores(x, from, a, id, key), error))
    || (exists id :: Stores(x, from, a, id, key) && MetaFailed(x, w, from, a, env, error))
  }

  /** The new key's metadata, in whole seconds. */
  function NewInfo(s: State, id: string, creator: Owner, description: string): Entry {
    Readable(KeyInfo(id, creator, description, s.now / 1_000_000_000, s.model, s.namespace, None))
  }

  /** The ID of one of the suffixes. */
  predicate IsDrawn(h: Digest, creator: Owner, model: string, draws: seq<string>, id: string) {
    exists d :: d in draws && id == ClientId(h, creator.username, model, d)
  }

  lemma DrawnEndsInSuffix(h: Digest, creator: Owner, model: string, draws: seq<string>, id: string)
    requires IsDrawn(h, creator, model, draws, id) && forall d :: d in draws ==> IsSuffix(d)
    ensures SuffixOf(id) in draws
  {
    var d :| d in draws && id == ClientId(h, creator.username, model, d);
    SuffixOfClientId(h, creator.username, model, d);
  }

  /** One of the suffixes names no key yet. */
  ghost predicate HasFree(h: Digest, s: State, creator: Owner, draws: seq<string>) {
    exists d :: d in draws && !InUse(ClientId(h, creator.username, s.model, d), s.secret, s.meta)
  }

  /** t is s with one key more in both objects, and nothing else changed in them. */
  predicate WithNewKey(s: State, t: State, id: string, key: string, creator: Owner, description: string) {
    && id !in s.secret.data && id !in s.meta.data
    && t.secret == Versioned(s.secret.version + 1, s.secret.data[id := key])
    && t.meta == Versioned(s.meta.version + 1, s.meta.data[id := NewInfo(s, id, creator, description)])
  }

  lemma CreateFailureNamesModel(x: History, w: Words, from: nat, a: nat, creator: Owner, draws: seq<string>,
                                key: string, env: Schedule, error: string)
    requires CreateFailed(x, w, from, a, creator, draws, key, env, error)
    ensures IsConflict(w.model) ==> IsConflict(error) || error == NoDraw(env.cause)
  {
    hide IsConflict, ReadFailed, SecretFailed, MetaFailed, DrawsUsed, Stores, NoDraw;
    if !IsConflict(w.model) {
    } else if id :| SecretFailed(x, w, from, a, env, Stores(x, from, a, id, key), error) {
      FailureNamesModel(x, w, from, a, env, Stores(x, from, a, id, key), error);
    } else if ReadFailed(w, env, error) || MetaFailed(x, w, from, a, env, error) {
      FailureNamesModel(x, w, from, a, env, false, error);
    }
  }

  /** The ConfigMap half of a create. */
  method WriteInfo(c: Cluster, a: nat, ghost from: nat, ghost mine: set<nat>, creator: Owner, description: string,
                   cm: Versioned<Entry>, clientId: string, key: string, env: Schedule)
    returns (r: Result<NewKey>)
    requires c.Valid() && a in mine && ForOthers(env, mine) && ReadsMeta(c.Log(), from, a, cm)
    requires a in c.st.attempts && c.st.attempts[a] == CreateWroteSecret(creator, description, cm, clientId, key)
    modifies c
    ensures c.Valid() && old(c.trace) <= c.trace && Later(old(c.st), c.st) && SameAttempts(old(c.st), c.st, mine - {a})
    ensures r.Ok? ==> r.value == NewKey(clientId, key) && clientId in c.st.returned
    ensures r.Ok? ==> c.trace == old(c.trace) + env.beforeWriteMeta + [WriteMeta(a)]
    ensures r.Ok? ==>
              var info := NewInfo(c.st, clientId, creator, description);
              c.st.meta == Versioned(cm.version + 1, cm.data[clientId := info])
    ensures r.Ok? ==> !env.fault.ConfigMapUpdateFails? && !env.fault.ConfigMapAnswerLost?
    ensures r.Err? ==> MetaFailed(c.Log(), c.Naming(), from, a, env, r.error)
    ensures Quiet(env) && cm == old(c.st).meta ==> r.Ok? && Resting(old(c.st).(meta := c.st.meta), c.st)
  {
    hide Run, Others, MetaFailed, ReadsMeta;
    ghost var x := c.Log();
    c.Interleave(env.beforeWriteMeta, mine);
    ReadsStay(x, c.Log(), from, a);
    var info := KeyInfo(clientId, creator, description, Seconds(c.st.now), c.st.model, c.st.namespace, None);
    var sent := SendConfigMap(c, a, from, mine, cm, cm.data[clientId := Readable(info)], env);
    r := if sent.Err? then Err(sent.error) else Ok(NewKey(clientId, key));
  }

  /** Both updates of a create, in order. */
  method WriteKey(c: Cluster, a: nat, ghost from: nat, ghost mine: set<nat>, creator: Owner, description: string,
                  secret: Versioned<string>, cm: Versioned<Entry>, clientId: string, key: string, env: Schedule)
    returns (r: Result<NewKey>)
    requires c.Valid() && a in mine && ForOthers(env, mine)
    requires ReadsSecret(c.Log(), from, a, secret) && ReadsMeta(c.Log(), from, a, cm) && clientId !in secret.data
    requires a in c.st.attempts && c.st.attempts[a] == CreateDrawn(creator, description, secret, cm, clientId, key)
    modifies c
    ensures c.Valid() && old(c.trace) <= c.trace && Later(old(c.st), c.st) && SameAttempts(old(c.st), c.st, mine - {a})
    ensures r.Ok? ==> r.value == NewKey(clientId, key) && clientId in c.st.returned
    ensures r.Ok? ==> Stores(c.Log(), from, a, clientId, key)
    ensures r.Ok? ==>
              c.trace == old(c.trace) + env.beforeWriteSecret + [WriteSecret(a)] + env.beforeWriteMeta + [WriteMeta(a)]
    ensures r.Ok? ==>
              var info := NewInfo(c.st, clientId, creator, description);
              c.st.meta == Versioned(cm.version + 1, cm.data[clientId := info])
    ensures r.Ok? ==> env.fault.NoFault? || env.fault.GetSecretFails? || env.fault.GetConfigMapFails?
    ensures r.Err? ==>
              var done := Stores(c.Log(), from, a, clientId, key);
              || SecretFailed(c.Log(), c.Naming(), from, a, env, done, r.error)
              || (done && MetaFailed(c.Log(), c.Naming(), from, a, env, r.error))
    ensures Quiet(env) && secret == old(c.st).secret && cm == old(c.st).meta ==>
              && r.Ok? && c.st.secret == Versioned(secret.version + 1, secret.data[clientId := key])
              && c.st.now == old(c.st).now && c.st.namespace == old(c.st).namespace
  {
    hide Run, Others, ReadsSecret, ReadsMeta, MetaFailed, Updates, NewInfo, Past;
    ghost var x := c.Log();
    c.Interleave(env.beforeWriteSecret, mine);
    ReadsStay(x, c.Log(), from, a);
    var data := secret.data[clientId := key];
    var sent := SendSecret(c, a, from, mine, secret, data, env);
    ghost var y := c.Log();
    StoredSecret(y, from, a, secret, data, clientId, key);
    ReadsStay(x, y, from, a);
    if sent.Err? { return Err(sent.error); }
    hide SecretFailed, Stores;
    r := WriteInfo(c, a, from, mine, creator, description, cm, clientId, key, env);
    WritesStay(y, c.Log(), from, a, clientId);
  }

  lemma StoredSecret(x: History, from: nat, a: nat, obj: Versioned<string>, data: map<string, string>, id: string,
                     key: string)
    requires id !in obj.data && data == obj.data[id := key]
    ensures (exists n: nat :: Updates(x, from, a, n, obj, data)) ==> Stores(x, from, a, id, key)
  {
    hide Updates;
    if n: nat :| Updates(x, from, a, n, obj, data) { assert StoresAt(x, from, a, n, obj, id, key); }
  }

  /**
   One attempt. Success means this very credential was put into the Secret and its metadata into the ConfigMap,
   and each failure has one of the reasons named.
   */
  method CreateKeyOnce(c: Cluster, a: nat, ghost from: nat, ghost mine: set<nat>, creator: Owner, description: string,
                       draws: seq<string>, key: string, env: Schedule)
    returns (r: Result<NewKey>)
    requires c.Valid() && a in mine && a !in c.st.attempts && creator.username != "" && from <= |c.trace|
    requires ForOthers(env, mine) && forall d :: d in draws ==> IsSuffix(d)
    modifies c
    ensures c.Valid() && old(c.trace) <= c.trace && Later(old(c.st), c.st) && SameAttempts(old(c.st), c.st, mine - {a})
    ensures r.Ok? ==> r.value.apiKey == key && r.value.clientId in c.st.returned && env.fault.NoFault?
    ensures r.Ok? ==> IsDrawn(c.h, creator, c.st.model, draws, r.value.clientId)
    ensures r.Ok? ==> Stores(c.Log(), from, a, r.value.clientId, key)
    ensures r.Ok? ==> r.value.clientId in c.st.meta.data
                      && c.st.meta.data[r.value.clientId] == NewInfo(c.st, r.value.clientId, creator, description)
    ensures r.Err? ==> CreateFailed(c.Log(), c.Naming(), from, a, creator, draws, key, env, r.error)
    ensures Quiet(env) && HasFree(c.h, old(c.st), creator, draws) ==>
              r.Ok? && WithNewKey(old(c.st), c.st, r.value.clientId, key, creator, description)
    ensures Quiet(env) && !HasFree(c.h, old(c.st), creator, draws) ==>
              r == Err(NoDraw(env.cause)) && c.st.secret == old(c.st).secret && c.st.meta == old(c.st).meta
  {
    hide Run, ClientId, Others, Past, ReadsSecret, ReadsMeta, ReadFailed, SecretFailed, MetaFailed, Stores, NoDraw;
    c.Begin(StartCreate(a, creator, description), a);
    var got := ReadBoth(c, a, from, mine, env);
    if got.Err? { return Err(got.error); }
    var (secret, cm) := got.value;
    ghost var x := c.Log();
    var drawn, clientId := DrawClientId(c, a, mine, creator, description, secret, cm, draws, key);
    ReadsStay(x, c.Log(), from, a);
    if !drawn { return Err(NoDraw(env.cause)); }
    r := WriteKey(c, a, from, mine, creator, description, secret, cm, clientId, key, env);
  }

  lemma CreateFailedStays(x: History, y: History, w: Words, from: nat, a: nat, creator: Owner, draws: seq<string>,
                          key: string, env: Schedule, error: string)
    requires Continues(x, y) && CreateFailed(x, w, from, a, creator, draws, key, env, error)
    ensures CreateFailed(y, w, from, a, creator, draws, key, env, error)
  {
    ReadsStay(x, y, from, a);
    MovesStay(x, y, from, a);
    forall id ensures Stores(x, from, a, id, key) ==> Stores(y, from, a, id, key) { WritesStay(x, y, from, a, id); }
    hide Stores, ReadsSecret, ReadsMeta, SecretMoved, MetaMoved, ClientId, UpdateError, ReadFailed, NoDraw;
    if id :| SecretFailed(x, w, from, a, env, Stores(x, from, a, id, key), error) {
      assert SecretFailed(y, w, from, a, env, Stores(y, from, a, id, key), error);
    } else if id :| Stores(x, from, a, id, key) && MetaFailed(x, w, from, a, env, error) {
      assert Stores(y, from, a, id, key) && MetaFailed(y, w, from, a, env, error);
    }
  }

  /** Each error so far has one of the reasons. */
  ghost predicate CreatesFailed(x: History, w: Words, from: nat, a: nat, creator: Owner, draws: seq<seq<string>>,
                                key: string, envs: seq<Schedule>, errors: seq<string>)
  {
    && |errors| <= |draws| && |errors| <= |envs|
    && forall i :: 0 <= i < |errors| ==>
         CreateFailed(x, w, from, a + i, creator, draws[i], key, envs[i], errors[i])
  }

  lemma NoneFailed(x: History, w: Words, from: nat, a: nat, creator: Owner, draws: seq<seq<string>>, key: string,
                   envs: seq<Schedule>)
    ensures CreatesFailed(x, w, from, a, creator, draws, key, envs, [])
  {
  }

  lemma OneMoreFailed(x: History, y: History, w: Words, from: nat, a: nat, creator: Owner, draws: seq<seq<string>>,
                      key: string, envs: seq<Schedule>, errors: seq<string>, r: Result<NewKey>)
    requires Continues(x, y) && CreatesFailed(x, w, from, a, creator, draws, key, envs, errors)
    requires var n := |errors|;
             && n < |draws| && n < |envs|
             && (r.Err? ==> CreateFailed(y, w, from, a + n, creator, draws[n], key, envs[n], r.error))
    ensures CreatesFailed(y, w, from, a, creator, draws, key, envs, if r.Err? then errors + [r.error] else errors)
  {
    hide CreateFailed, Continues;
    forall i | 0 <= i < |errors| ensures CreateFailed(y, w, from, a + i, creator, draws[i], key, envs[i], errors[i]) {
      CreateFailedStays(x, y, w, from, a + i, creator, draws[i], key, envs[i], errors[i]);
    }
  }

  /** The errors of the attempts made show why there were as many: each but the last was a conflict. */
  ghost predicate Retried(errors: seq<string>, failed: bool, attempts: nat, error: string, gaveUp: string) {
    && 1 <= attempts <= MAX_RETRIES && |errors| == attempts - (if failed then 0 else 1)
    && (forall i :: 0 <= i < attempts - 1 ==> IsConflict(errors[i]))
    && (failed && IsConflict(errors[attempts - 1]) ==> attempts == MAX_RETRIES && error == gaveUp)
    && (failed && !IsConflict(errors[attempts - 1]) ==> error == errors[attempts - 1])
  }

  function GaveUpCreating(model: string): string { "creating key for model " + model + ": too many conflicts" }

  function GaveUpRevoking(id: string, model: string): string {
    "revoking key " + id + " for model " + model + ": too many conflicts"
  }

  /**
   The retry loop: attempts a, a+1 and a+2, another exactly after a conflict, each failure for one of the reasons
   named. For a model whose name looks like a conflict another follows every failed call to the API server.
   */
  method CreateKey(c: Cluster, a: nat, creator: Owner, description: string, draws: seq<seq<string>>, key: string,
                   envs: seq<Schedule>)
    returns (r: Result<NewKey>, attempts: nat, errors: seq<string>)
    requires c.Valid() && |draws| == |envs| == MAX_RETRIES
    requires forall k, d :: 0 <= k < MAX_RETRIES && d in draws[k] ==> IsSuffix(d)
    requires forall k :: 0 <= k < MAX_RETRIES ==> ForOthers(envs[k], {a, a + 1, a + 2})
    requires a !in c.st.attempts && a + 1 !in c.st.attempts && a + 2 !in c.st.attempts
    modifies c
    ensures c.Valid() && old(c.trace) <= c.trace && c.st.model == old(c.st).model
    ensures creator.username == "" ==> r.Err? && c.st == old(c.st) && attempts == 0 && errors == []
    ensures r.Ok? ==> 1 <= attempts <= MAX_RETRIES && SuffixOf(r.value.clientId) in draws[attempts - 1]
    ensures r.Ok? ==> r.value.apiKey == key && r.value.clientId in c.st.returned
                      && Stores(c.Log(), |old(c.trace)|, a + attempts - 1, r.value.clientId, key)
    ensures r.Ok? ==> r.value.clientId in c.st.meta.data
                      && c.st.meta.data[r.value.clientId] == NewInfo(c.st, r.value.clientId, creator, description)
    ensures creator.username != "" ==>
              Retried(errors, r.Err?, attempts, if r.Err? then r.error else "", GaveUpCreating(c.st.model))
    ensures CreatesFailed(c.Log(), c.Naming(), |old(c.trace)|, a, creator, draws, key, envs, errors)
    ensures creator.username != "" && r.Err? && IsConflict(c.st.model) ==>
              attempts == MAX_RETRIES || r.error == NoDraw(envs[attempts - 1].cause)
    ensures creator.username != "" && Quiet(envs[0]) && HasFree(c.h, old(c.st), creator, draws[0]) ==>
              && r.Ok? && attempts == 1
              && WithNewKey(old(c.st), c.st, r.value.clientId, key, creator, description)
  {
    hide Run, Apply, ClientId, Sanitized, IsConflict, NoDraw, CreateFailed, CreatesFailed, Stores, HasFree, WithNewKey;
    hide Others, ForOthers, Quiet, NewInfo, Past, GaveUpCreating, IsDrawn, SuffixOf, IsSuffix;
    attempts, errors := 0, [];
    NoneFailed(c.Log(), c.Naming(), |c.trace|, a, creator, draws, key, envs);
    if creator.username == "" { return Err("username is required"), 0, []; }
    ghost var from, mine := |c.trace|, {a, a + 1, a + 2};
    while attempts < MAX_RETRIES
      invariant 0 <= attempts <= MAX_RETRIES && |errors| == attempts
      invariant forall i :: 0 <= i < attempts ==> IsConflict(errors[i])
      invariant CreatesFailed(c.Log(), c.Naming(), from, a, creator, draws, key, envs, errors)
      invariant c.Valid() && old(c.trace) <= c.trace && c.st.model == old(c.st).model
      invariant attempts == 0 ==> a !in c.st.attempts && c.st == old(c.st)
      invariant attempts <= 1 ==> a + 1 !in c.st.attempts
      invariant attempts <= 2 ==> a + 2 !in c.st.attempts
      invariant attempts > 0 ==> !(Quiet(envs[0]) && HasFree(c.h, old(c.st), creator, draws[0]))
    {
      ghost var x := c.Log();
      r := CreateKeyOnce(c, a + attempts, from, mine, creator, description, draws[attempts], key, envs[attempts]);
      OneMoreFailed(x, c.Log(), c.Naming(), from, a, creator, draws, key, envs, errors, r);
      if r.Err? {
        CreateFailureNamesModel(c.Log(), c.Naming(), from, a + attempts, creator, draws[attempts], key, envs[attempts],
                                r.error);
      }
      attempts := attempts + 1;
      if r.Ok? {
        DrawnEndsInSuffix(c.h, creator, c.st.model, draws[attempts - 1], r.value.clientId);
        return;
      }
      errors := errors + [r.error];
      if !IsConflict(r.error) { return; }
    }
    r := Err(GaveUpCreating(c.st.model));
  }

  // ---- revokeKeyOnce ----

  /** Drops what older revoked keys left behind, one entry at a time. */
  method DropExpired(data: map<string, Entry>, nowSeconds: int) returns (kept: map<string, Entry>)
    ensures kept == map x | x in data && !Expired(data[x], nowSeconds) :: data[x]
  {
    kept := data;
    var rest := data.Keys;
    while rest != {}
      invariant rest <= data.Keys
      invariant kept == map x | x in data && (x in rest || !Expired(data[x], nowSeconds)) :: data[x]
      decreases rest
    {
      var x :| x in rest;
      rest := rest - {x};
      if Expired(data[x], nowSeconds) { kept := kept - {x}; }
    }
  }

  /** What a revoke at second now makes of the ConfigMap's data: the key's tombstone, and no expired ones. */
  ghost predicate Purged(before: map<string, Entry>, after: map<string, Entry>, id: string, now: int) {
    && id in after
    && (var info := if id in before then InfoOf(before[id]) else NO_INFO;
        after[id] == Readable(KeyInfo(id, info.owner, "", info.createdAt, info.model, info.namespace, Some(now))))
    && forall x :: x != id ==>
         && (x in after ==> x in before && after[x] == before[x])
         && (x in before ==> (x !in after <==> before[x].Readable? && before[x].info.revokedAt.Some?
                                               && now - before[x].info.revokedAt.value > 90 * 24 * 3600))
  }

  lemma RevokedDataIsPurged(data: map<string, Entry>, id: string, now: int)
    ensures Purged(data, RevokedData(data, id, now), id, now)
  {
  }

  /** The ConfigMap half of a revoke: purge, put the tombstone in, update. */
  method WriteTombstone(c: Cluster, a: nat, ghost from: nat, ghost mine: set<nat>, id: string, cm: Versioned<Entry>,
                        at: int, env: Schedule)
    returns (r: Result<()>)
    requires c.Valid() && a in mine && ForOthers(env, mine) && ReadsMeta(c.Log(), from, a, cm)
    requires a in c.st.attempts && c.st.attempts[a] == RevokeStamped(id, cm, at)
    modifies c
    ensures c.Valid() && old(c.trace) <= c.trace && Later(old(c.st), c.st) && SameAttempts(old(c.st), c.st, mine - {a})
    ensures r.Ok? ==> c.trace == old(c.trace) + env.beforeWriteMeta + [WriteMeta(a)]
    ensures r.Ok? ==> c.st.meta.version == cm.version + 1 && Purged(cm.data, c.st.meta.data, id, at / 1_000_000_000)
    ensures r.Ok? && id in cm.data ==> OwnerOf(c.st.meta.data[id]) == OwnerOf(cm.data[id])
    ensures r.Ok? ==> !env.fault.ConfigMapUpdateFails? && !env.fault.ConfigMapAnswerLost?
    ensures r.Err? ==> MetaFailed(c.Log(), c.Naming(), from, a, env, r.error)
    ensures Quiet(env) && cm == old(c.st).meta ==> r.Ok? && Resting(old(c.st).(meta := c.st.meta), c.st)
  {
    hide Run, Others, ReadsMeta, MetaFailed, Expired;
    var info := if id in cm.data then InfoOf(cm.data[id]) else NO_INFO;
    var data := DropExpired(cm.data, Seconds(at));
    data := data[id := Tombstone(id, info, Seconds(at))];
    assert data == RevokedData(cm.data, id, Seconds(at));
    RevokedDataIsPurged(cm.data, id, Seconds(at));
    hide RevokedData;
    ghost var x := c.Log();
    c.Interleave(env.beforeWriteMeta, mine);
    ReadsStay(x, c.Log(), from, a);
    r := SendConfigMap(c, a, from, mine, cm, data, env);
  }

  lemma RemovedFromSecret(x: History, from: nat, a: nat, obj: Versioned<string>, data: map<string, string>, id: string)
    requires id in obj.data && data == obj.data - {id}
    ensures (exists n: nat :: Updates(x, from, a, n, obj, data)) ==> Removes(x, from, a, id)
  {
    hide Updates;
    if n: nat :| Updates(x, from, a, n, obj, data) { assert Updates(x, from, a, n, obj, obj.data - {id}); }
  }

  /** The tombstone carries the time of the attempt's own stamp, in whole seconds. */
  ghost predicate Stamped(x: History, from: nat, a: nat, before: map<string, Entry>, after: map<string, Entry>,
                          id: string)
  {
    exists n: nat :: Step(x, from, n, Stamp(a)) && Purged(before, after, id, Past(x, n).now / 1_000_000_000)
  }

  /** After the credential is gone: the tombstone's time is taken, then the tombstone written. */
  method Retire(c: Cluster, a: nat, ghost from: nat, ghost mine: set<nat>, id: string, cm: Versioned<Entry>,
                env: Schedule)
    returns (r: Result<()>)
    requires c.Valid() && a in mine && ForOthers(env, mine) && ReadsMeta(c.Log(), from, a, cm) && from <= |c.trace|
    requires a in c.st.attempts && c.st.attempts[a] == RevokeWroteSecret(id, cm)
    modifies c
    ensures c.Valid() && old(c.trace) <= c.trace && Later(old(c.st), c.st) && SameAttempts(old(c.st), c.st, mine - {a})
    ensures r.Ok? ==> c.trace == old(c.trace) + env.beforeStamp + [Stamp(a)] + env.beforeWriteMeta + [WriteMeta(a)]
    ensures r.Ok? ==> Stamped(c.Log(), from, a, cm.data, c.st.meta.data, id)
    ensures r.Ok? && id in cm.data ==> id in c.st.meta.data && OwnerOf(c.st.meta.data[id]) == OwnerOf(cm.data[id])
    ensures r.Ok? ==> id in c.st.meta.data && IsTombstone(c.st.meta.data[id])
    ensures r.Ok? ==> !env.fault.ConfigMapUpdateFails? && !env.fault.ConfigMapAnswerLost?
    ensures r.Err? ==> MetaFailed(c.Log(), c.Naming(), from, a, env, r.error)
    ensures Quiet(env) && cm == old(c.st).meta ==>
              && r.Ok? && Resting(old(c.st).(meta := c.st.meta), c.st) && c.st.meta.version == cm.version + 1
              && Purged(cm.data, c.st.meta.data, id, old(c.st).now / 1_000_000_000)
  {
    hide Run, Apply, Others, ReadsMeta, MetaFailed, Past;
    ghost var x := c.Log();
    c.Interleave(env.beforeStamp, mine);
    ghost var n := |c.trace|;
    var at := c.TakeStamp(a);
    ReadsStay(x, c.Log(), from, a);
    assert Step(c.Log(), from, n, Stamp(a));
    ghost var y := c.Log();
    r := WriteTombstone(c, a, from, mine, id, cm, at, env);
    PastStays(y, c.Log(), from, n);
  }

  /** Both updates of a revoke; the tombstone's time is taken after the first and before the second. */
  method RemoveKey(c: Cluster, a: nat, ghost from: nat, ghost mine: set<nat>, id: string, secret: Versioned<string>,
                   cm: Versioned<Entry>, env: Schedule)
    returns (r: Result<()>)
    requires c.Valid() && a in mine && ForOthers(env, mine) && id in secret.data && from <= |c.trace|
    requires ReadsSecret(c.Log(), from, a, secret) && ReadsMeta(c.Log(), from, a, cm)
    requires a in c.st.attempts && c.st.attempts[a] == RevokeReadMeta(id, secret, cm)
    modifies c
    ensures c.Valid() && old(c.trace) <= c.trace && Later(old(c.st), c.st) && SameAttempts(old(c.st), c.st, mine - {a})
    ensures r.Ok? ==>
              c.trace == old(c.trace) + env.beforeWriteSecret + [WriteSecret(a)] + env.beforeStamp + [Stamp(a)]
                         + env.beforeWriteMeta + [WriteMeta(a)]
    ensures r.Ok? ==> id in c.st.removed && Removes(c.Log(), from, a, id)
    ensures r.Ok? ==> id in c.st.meta.data && IsTombstone(c.st.meta.data[id])
    ensures r.Ok? ==> Stamped(c.Log(), from, a, cm.data, c.st.meta.data, id)
    ensures r.Ok? && id in cm.data ==> id in c.st.meta.data && OwnerOf(c.st.meta.data[id]) == OwnerOf(cm.data[id])
    ensures r.Ok? ==> env.fault.NoFault? || env.fault.GetSecretFails? || env.fault.GetConfigMapFails?
    ensures r.Err? ==>
              var done := Removes(c.Log(), from, a, id);
              || SecretFailed(c.Log(), c.Naming(), from, a, env, done, r.error)
              || (done && MetaFailed(c.Log(), c.Naming(), from, a, env, r.error))
    ensures Quiet(env) && secret == old(c.st).secret && cm == old(c.st).meta ==>
              && r.Ok? && c.st.secret == Versioned(secret.version + 1, secret.data - {id})
              && c.st.meta.version == cm.version + 1
              && Purged(cm.data, c.st.meta.data, id, old(c.st).now / 1_000_000_000)
  {
    hide Run, Apply, Others, ReadsSecret, ReadsMeta, MetaFailed, SecretMoved, Updates, Removes, Past, Stamped, Purged;
    ghost var x := c.Log();
    c.Interleave(env.beforeWriteSecret, mine);
    ReadsStay(x, c.Log(), from, a);
    var data := secret.data - {id};
    r := SendSecret(c, a, from, mine, secret, data, env);
    ghost var y := c.Log();
    RemovedFromSecret(y, from, a, secret, data, id);
    ReadsStay(x, y, from, a);
    if r.Err? { return; }
    r := Retire(c, a, from, mine, id, cm, env);
    WritesStay(y, c.Log(), from, a, id);
  }

  /** Why an attempt to revoke failed: a call, a race, or no such credential in the Secret it read. */
  ghost predicate RevokeFailed(x: History, w: Words, from: nat, a: nat, id: string, env: Schedule, error: string) {
    || ReadFailed(w, env, error)
    || (ReadsWithout(x, from, a, id) && error == NotFoundError(w.text, id, w.model))
    || SecretFailed(x, w, from, a, env, Removes(x, from, a, id), error)
    || (Removes(x, from, a, id) && MetaFailed(x, w, from, a, env, error))
  }

  lemma RevokeFailureNamesModel(x: History, w: Words, from: nat, a: nat, id: string, env: Schedule, error: string)
    requires RevokeFailed(x, w, from, a, id, env, error)
    ensures IsConflict(w.model) ==> IsConflict(error)
  {
    UnknownKeyCanLookLikeConflict(w.text, id, w.model);
    hide IsConflict, ReadFailed, SecretFailed, MetaFailed, ReadsWithout, Removes, NotFoundError;
    if IsConflict(w.model) && error != NotFoundError(w.text, id, w.model) {
      FailureNamesModel(x, w, from, a, env, Removes(x, from, a, id), error);
    }
  }

  lemma RevokeFailedStays(x: History, y: History, w: Words, from: nat, a: nat, id: string, env: Schedule, error: string)
    requires Continues(x, y) && RevokeFailed(x, w, from, a, id, env, error)
    ensures RevokeFailed(y, w, from, a, id, env, error)
  {
    ReadsStay(x, y, from, a);
    MovesStay(x, y, from, a);
    WritesStay(x, y, from, a, id);
    hide Removes, ReadsSecret, ReadsMeta, SecretMoved, MetaMoved, UpdateError, ReadFailed, NotFoundError;
  }

  /** One attempt. Success means the credential was removed and its tombstone, naming its owner, written. */
  method RevokeKeyOnce(c: Cluster, a: nat, ghost from: nat, ghost mine: set<nat>, id: string, env: Schedule)
    returns (r: Result<()>)
    requires c.Valid() && a in mine && a !in c.st.attempts && ForOthers(env, mine) && from <= |c.trace|
    modifies c
    ensures c.Valid() && old(c.trace) <= c.trace && Later(old(c.st), c.st) && SameAttempts(old(c.st), c.st, mine - {a})
    ensures r.Ok? ==> id in c.st.removed && id in c.st.meta.data && IsTombstone(c.st.meta.data[id])
    ensures r.Ok? ==> env.fault.NoFault? && Removes(c.Log(), from, a, id)
    ensures r.Ok? ==> exists cm: Versioned<Entry> ::
                        && ReadsMeta(c.Log(), from, a, cm) && Stamped(c.Log(), from, a, cm.data, c.st.meta.data, id)
                        && (id in cm.data ==> OwnerOf(c.st.meta.data[id]) == OwnerOf(cm.data[id]))
    ensures r.Err? ==> RevokeFailed(c.Log(), c.Naming(), from, a, id, env, r.error)
    ensures Quiet(env) && id in old(c.st).secret.data ==> r.Ok? && WithoutKey(old(c.st), c.st, id)
    ensures Quiet(env) && id !in old(c.st).secret.data ==>
              && r == Err(NotFoundError(c.text, id, c.st.model))
              && c.st.secret == old(c.st).secret && c.st.meta == old(c.st).meta
  {
    hide Run, Apply, Others, ReadsSecret, ReadsMeta, MetaFailed, SecretFailed, ReadFailed, Removes, Past, Stamped;
    hide NotFoundError, Purged, IsConflict;
    c.Begin(StartRevoke(a, id), a);
    var got := ReadBoth(c, a, from, mine, env);
    if got.Err? { return Err(got.error); }
    var (secret, cm) := got.value;
    if id !in secret.data { return Err(NotFoundError(c.text, id, c.st.model)); }
    ghost var x := c.Log();
    r := RemoveKey(c, a, from, mine, id, secret, cm, env);
    ReadsStay(x, c.Log(), from, a);
  }

  /** t is s without the credential and with its tombstone, and nothing else changed but expired tombstones. */
  ghost predicate WithoutKey(s: State, t: State, id: string) {
    && t.secret == Versioned(s.secret.version + 1, s.secret.data - {id}) && t.meta.version == s.meta.version + 1
    && Purged(s.meta.data, t.meta.data, id, s.now / 1_000_000_000)
  }

  /** Each error so far has one of the reasons. */
  ghost predicate RevokesFailed(x: History, w: Words, from: nat, a: nat, id: string, envs: seq<Schedule>,
                                errors: seq<string>)
  {
    |errors| <= |envs| && forall i :: 0 <= i < |errors| ==> RevokeFailed(x, w, from, a + i, id, envs[i], errors[i])
  }

  lemma NoRevokeFailed(x: History, w: Words, from: nat, a: nat, id: string, envs: seq<Schedule>)
    ensures RevokesFailed(x, w, from, a, id, envs, [])
  {
  }

  lemma OneMoreRevokeFailed(x: History, y: History, w: Words, from: nat, a: nat, id: string, envs: seq<Schedule>,
                            errors: seq<string>, r: Result<()>)
    requires Continues(x, y) && RevokesFailed(x, w, from, a, id, envs, errors) && |errors| < |envs|
    requires r.Err? ==> RevokeFailed(y, w, from, a + |errors|, id, envs[|errors|], r.error)
    ensures RevokesFailed(y, w, from, a, id, envs, if r.Err? then errors + [r.error] else errors)
  {
    hide RevokeFailed, Continues;
    forall i | 0 <= i < |errors| ensures RevokeFailed(y, w, from, a + i, id, envs[i], errors[i]) {
      RevokeFailedStays(x, y, w, from, a + i, id, envs[i], errors[i]);
    }
  }

  /**
   The retry loop: attempts a, a+1 and a+2, another exactly after a conflict, each failure for one of the reasons
   named. For a model whose name looks like a conflict another follows every failure.
   */
  method RevokeKey(c: Cluster, a: nat, id: string, envs: seq<Schedule>)
    returns (r: Result<()>, attempts: nat, errors: seq<string>)
    requires c.Valid() && |envs| == MAX_RETRIES
    requires forall k :: 0 <= k < MAX_RETRIES ==> ForOthers(envs[k], {a, a + 1, a + 2})
    requires a !in c.st.attempts && a + 1 !in c.st.attempts && a + 2 !in c.st.attempts
    modifies c
    ensures c.Valid() && old(c.trace) <= c.trace && c.st.model == old(c.st).model
    ensures r.Ok? ==> id in c.st.removed && id in c.st.meta.data && IsTombstone(c.st.meta.data[id])
    ensures r.Ok? ==> 1 <= attempts && Removes(c.Log(), |old(c.trace)|, a + attempts - 1, id)
    ensures Retried(errors, r.Err?, attempts, if r.Err? then r.error else "", GaveUpRevoking(id, c.st.model))
    ensures RevokesFailed(c.Log(), c.Naming(), |old(c.trace)|, a, id, envs, errors)
    ensures r.Err? && IsConflict(c.st.model) ==> attempts == MAX_RETRIES
    ensures Quiet(envs[0]) && id in old(c.st).secret.data ==>
              r.Ok? && attempts == 1 && WithoutKey(old(c.st), c.st, id)
    ensures Quiet(envs[0]) && id !in old(c.st).secret.data && !IsConflict(NotFoundError(c.text, id, c.st.model)) ==>
              && r == Err(NotFoundError(c.text, id, c.st.model)) && attempts == 1
              && c.st.secret == old(c.st).secret && c.st.meta == old(c.st).meta
  {
    hide Run, Apply, IsConflict, RevokeFailed, RevokesFailed, Removes, Past, Others, ForOthers, Quiet, WithoutKey;
    hide GaveUpRevoking, NotFoundError, Stamped;
    attempts, errors := 0, [];
    ghost var from, mine := |c.trace|, {a, a + 1, a + 2};
    NoRevokeFailed(c.Log(), c.Naming(), from, a, id, envs);
    while attempts < MAX_RETRIES
      invariant 0 <= attempts <= MAX_RETRIES && |errors| == attempts
      invariant forall i :: 0 <= i < attempts ==> IsConflict(errors[i])
      invariant RevokesFailed(c.Log(), c.Naming(), from, a, id, envs, errors)
      invariant c.Valid() && old(c.trace) <= c.trace && c.st.model == old(c.st).model
      invariant attempts == 0 ==> a !in c.st.attempts && c.st == old(c.st)
      invariant attempts <= 1 ==> a + 1 !in c.st.attempts
      invariant attempts <= 2 ==> a + 2 !in c.st.attempts
      invariant attempts > 0 && Quiet(envs[0]) ==>
                  id !in old(c.st).secret.data && IsConflict(NotFoundError(c.text, id, c.st.model))
    {
      ghost var x := c.Log();
      r := RevokeKeyOnce(c, a + attempts, from, mine, id, envs[attempts]);
      OneMoreRevokeFailed(x, c.Log(), c.Naming(), from, a, id, envs, errors, r);
      if r.Err? {
        RevokeFailureNamesModel(c.Log(), c.Naming(), from, a + attempts, id, envs[attempts], r.error);
      }
      attempts := attempts + 1;
      if r.Ok? { return; }
      errors := errors + [r.error];
      if !IsConflict(r.error) { return; }
    }
    r := Err(GaveUpRevoking(id, c.st.model));
  }
}
