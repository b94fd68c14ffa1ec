// The login handlers as steps on the pending-session table, any number of them at once.
//
// A handler that calls the store twice (choose, callback, dev login) is two or three steps, with
// what it remembers in between held in pending. notes records what the outside world is told.
module Login {
  import opened Wrappers
  import opened Sessions

  // What is configured. hash stands for the base64url-encoded SHA-256 of section 4.2 of RFC 7636.
  datatype Config = Config(
    providers: set<string>,
    authEndpoints: set<string>,
    tokenEndpoints: set<string>,
    devMode: bool,
    ttl: int,
    hash: string -> string)

  datatype Pending =
    | Choosing(id: string, provider: string)
    | Exchanging(id: string, provider: string, verifier: string, readAt: nat)
    | AwaitingToken(id: string)
    | CompletingDev(id: string)

  // Started and Chosen are the two ways a session gets a provider and a verifier; Authorized is
  // the redirect to the provider, Exchanged the request of callback h to its token endpoint
  // (readAt: how many notes there were when that callback read the session), Completed a token
  // stored in a session by handler h (a callback, or a dev login), Polled a token handed to a client.
  datatype Note =
    | Started(id: string, provider: string, verifier: string)
    | Chosen(id: string, provider: string, verifier: string)
    | Authorized(id: string, provider: string, challenge: string)
    | Exchanged(h: nat, id: string, provider: string, verifier: string, readAt: nat)
    | Completed(h: nat, id: string, token: string, dev: bool)
    | Polled(id: string, token: string)

  datatype State = State(table: Table, now: int, used: set<string>, pending: map<nat, Pending>, notes: seq<Note>)

  datatype Action =
    | CliStart(id: string)
    | ShowPicker(id: string)
    | BeginLogin(id: string, provider: string, verifier: string, source: string)
    | DevLogin(h: nat, id: string, source: string)
    | DevComplete(h: nat, token: string)
    | Choose(h: nat, id: string, provider: string)
    | StoreChoice(h: nat, verifier: string)
    | Authorize(id: string)
    | Callback(h: nat, id: string)
    | Exchange(h: nat)
    | FinishCallback(h: nat, token: string)
    | GiveUp(h: nat)
    | Poll(id: string)
    | SweepNow
    | Pass(time: nat)

  function Init(): State {
    State(map[], 0, {}, map[], [])
  }

  predicate Enabled(cfg: Config, s: State, a: Action) {
    match a
    case CliStart(id) => id !in s.used
    case BeginLogin(id, provider, _, _) => id !in s.used && provider != "dev" && provider in cfg.providers
    case DevLogin(h, id, _) => id !in s.used && cfg.devMode && h !in s.pending
    case DevComplete(h, token) => h in s.pending && s.pending[h].CompletingDev? && token != ""
    case Choose(h, _, provider) => h !in s.pending && provider in cfg.providers
    case StoreChoice(h, _) => h in s.pending && s.pending[h].Choosing?
    case ShowPicker(_) => true
    case Authorize(_) => true
    case Callback(h, _) => h !in s.pending
    case Exchange(h) => h in s.pending && s.pending[h].Exchanging?
    case FinishCallback(h, token) => h in s.pending && s.pending[h].AwaitingToken? && token != ""
    case GiveUp(h) => h in s.pending
    case Poll(_) => true
    case SweepNow => true
    case Pass(_) => true
  }

  // The table operation an action performs.
  function OpOf(s: State, a: Action): Option<Op> {
    match a
    case CliStart(id) => Some(Create(id, "", "", "cli"))
    case BeginLogin(id, provider, verifier, source) => Some(Create(id, provider, verifier, source))
    case DevLogin(_, id, source) => Some(Create(id, "dev", "", source))
    case DevComplete(h, token) =>
      if h in s.pending && s.pending[h].CompletingDev? then Some(Complete(s.pending[h].id, token)) else None
    case Choose(_, id, _) => Some(Get(id))
    case StoreChoice(h, verifier) =>
      if h in s.pending && s.pending[h].Choosing?
      then Some(SetProvider(s.pending[h].id, s.pending[h].provider, verifier)) else None
    case ShowPicker(id) => Some(Get(id))
    case Authorize(id) => Some(Get(id))
    case Callback(_, id) => Some(Get(id))
    case FinishCallback(h, token) => if h in s.pending then Some(Complete(s.pending[h].id, token)) else None
    case Poll(id) => Some(Consume(id))
    case SweepNow => Some(Sweep)
    case _ => None
  }

  function TableAfter(cfg: Config, s: State, a: Action): Table {
    match OpOf(s, a) case Some(op) => After(s.table, op, s.now, cfg.ttl) case None => s.table
  }

  function Answered(cfg: Config, s: State, a: Action): Answer {
    match OpOf(s, a) case Some(op) => Reply(s.table, op, s.now, cfg.ttl) case None => Nothing
  }

  function NotesAfter(cfg: Config, s: State, a: Action): seq<Note>
    requires Enabled(cfg, s, a)
  {
    match a
    case CliStart(id) => s.notes + [Started(id, "", "")]
    case BeginLogin(id, provider, verifier, _) => s.notes + [Started(id, provider, verifier)]
    case DevLogin(_, id, _) => s.notes + [Started(id, "dev", "")]
    case StoreChoice(h, verifier) =>
      if s.pending[h].id in s.table then s.notes + [Chosen(s.pending[h].id, s.pending[h].provider, verifier)]
      else s.notes
    case Authorize(id) =>
      (match Answered(cfg, s, a)
       case Found(sess) =>
         if sess.provider in cfg.authEndpoints
         then s.notes + [Authorized(id, sess.provider, cfg.hash(sess.verifier))] else s.notes
       case _ => s.notes)
    case Exchange(h) =>
      var p := s.pending[h];
      s.notes + [Exchanged(h, p.id, p.provider, p.verifier, p.readAt)]
    case DevComplete(h, token) =>
      if s.pending[h].id in s.table then s.notes + [Completed(h, s.pending[h].id, token, true)] else s.notes
    case FinishCallback(h, token) =>
      if s.pending[h].id in s.table then s.notes + [Completed(h, s.pending[h].id, token, false)] else s.notes
    case Poll(id) =>
      (match Answered(cfg, s, a) case Token(token) => s.notes + [Polled(id, token)] case _ => s.notes)
    case _ => s.notes
  }

  function PendingAfter(cfg: Config, s: State, a: Action): map<nat, Pending>
    requires Enabled(cfg, s, a)
  {
    match a
    case DevLogin(h, id, _) => s.pending[h := CompletingDev(id)]
    case Choose(h, id, provider) =>
      if Answered(cfg, s, a).Found? then s.pending[h := Choosing(id, provider)] else s.pending
    case Callback(h, id) =>
      (match Answered(cfg, s, a)
       case Found(sess) =>
         if sess.provider in cfg.tokenEndpoints
         then s.pending[h := Exchanging(id, sess.provider, sess.verifier, |s.notes|)] else s.pending
       case _ => s.pending)
    case Exchange(h) => s.pending[h := AwaitingToken(s.pending[h].id)]
    case StoreChoice(h, _) => s.pending - {h}
    case DevComplete(h, _) => s.pending - {h}
    case FinishCallback(h, _) => s.pending - {h}
    case GiveUp(h) => s.pending - {h}
    case _ => s.pending
  }

  function Apply(cfg: Config, s: State, a: Action): State
    requires Enabled(cfg, s, a)
  {
    State(
      TableAfter(cfg, s, a),
      if a.Pass? then s.now + a.time else s.now,
      if a.CliStart? || a.BeginLogin? || a.DevLogin? then s.used + {a.id} else s.used,
      PendingAfter(cfg, s, a),
      NotesAfter(cfg, s, a))
  }

  predicate IsRun(cfg: Config, tr: seq<State>, acts: seq<Action>) {
    && |tr| == |acts| + 1 && tr[0] == Init()
    && forall i :: 0 <= i < |acts| ==>
         Enabled(cfg, tr[i], acts[i]) && tr[i + 1] == Apply(cfg, tr[i], acts[i])
  }

  // ---- Where a session's provider and verifier come from ----

  predicate Sets(note: Note, id: string) {
    (note.Started? || note.Chosen?) && note.id == id
  }

  // The provider and verifier of the last login or choose for id among the first n notes.
  function Origin(notes: seq<Note>, n: nat, id: string): Option<(string, string)>
    requires n <= |notes|
  {
    if n == 0 then None
    else if Sets(notes[n - 1], id) then Some((notes[n - 1].provider, notes[n - 1].verifier))
    else Origin(notes, n - 1, id)
  }

  lemma {:induction false} OriginPrefix(notes: seq<Note>, more: seq<Note>, n: nat, id: string)
    requires n <= |notes| && notes <= more
    ensures Origin(more, n, id) == Origin(notes, n, id)
  {
    if n > 0 {
      OriginPrefix(notes, more, n - 1, id);
    }
  }

  lemma {:induction false} OriginUnchanged(notes: seq<Note>, i: nat, n: nat, id: string)
    requires i <= n <= |notes|
    requires forall k :: i <= k < n ==> !Sets(notes[k], id)
    ensures Origin(notes, n, id) == Origin(notes, i, id)
    decreases n
  {
    if i < n {
      OriginUnchanged(notes, i, n - 1, id);
    }
  }

  lemma {:induction false} OriginStays(notes: seq<Note>, i: nat, n: nat, id: string)
    requires i <= n <= |notes| && Origin(notes, i, id).Some?
    ensures Origin(notes, n, id).Some?
    decreases n
  {
    if i < n {
      OriginStays(notes, i, n - 1, id);
    }
  }

  lemma {:induction false} OriginIsOneNote(notes: seq<Note>, n: nat, id: string)
    requires n <= |notes| && Origin(notes, n, id).Some?
    ensures exists k ::
              && 0 <= k < n && Sets(notes[k], id)
              && Origin(notes, n, id) == Some((notes[k].provider, notes[k].verifier))
  {
    if !Sets(notes[n - 1], id) {
      OriginIsOneNote(notes, n - 1, id);
    }
  }

  // The place of the last completion of id among the first n notes.
  function Completion(notes: seq<Note>, n: nat, id: string): (at: Option<nat>)
    requires n <= |notes|
    ensures at.Some? ==> at.value < n && notes[at.value].Completed? && notes[at.value].id == id
  {
    if n == 0 then None
    else if notes[n - 1].Completed? && notes[n - 1].id == id then Some(n - 1)
    else Completion(notes, n - 1, id)
  }

  lemma {:induction false} CompletionPrefix(notes: seq<Note>, more: seq<Note>, n: nat, id: string)
    requires n <= |notes| && notes <= more
    ensures Completion(more, n, id) == Completion(notes, n, id)
  {
    if n > 0 {
      CompletionPrefix(notes, more, n - 1, id);
    }
  }

  lemma {:induction false} CompletionIsLast(notes: seq<Note>, n: nat, id: string)
    requires n <= |notes| && Completion(notes, n, id).Some?
    ensures forall k :: Completion(notes, n, id).value < k < n ==> !(notes[k].Completed? && notes[k].id == id)
  {
    if !(notes[n - 1].Completed? && notes[n - 1].id == id) {
      CompletionIsLast(notes, n - 1, id);
    }
  }

  // The last completion of id among the first n notes stored this token.
  predicate Holds(notes: seq<Note>, n: nat, id: string, token: string)
    requires n <= |notes|
  {
    var at := Completion(notes, n, id);
    at.Some? && notes[at.value].token == token
  }

  predicate IsOf(note: Note, h: nat) {
    (note.Exchanged? || note.Completed?) && note.h == h
  }

  // The last thing handler h did among the first n notes was to make an exchange for id.
  predicate ExchangedBy(notes: seq<Note>, n: nat, h: nat, id: string)
    requires n <= |notes|
  {
    exists k ::
      && 0 <= k < n && notes[k].Exchanged? && notes[k].h == h && notes[k].id == id
      && forall c :: k < c < n ==> !IsOf(notes[c], h)
  }

  // A note is justified by the notes before it.
  predicate NoteOk(cfg: Config, notes: seq<Note>, n: nat)
    requires n < |notes|
  {
    match notes[n]
    case Started(id, _, _) => Origin(notes, n, id) == None
    case Authorized(id, provider, challenge) =>
      var o := Origin(notes, n, id);
      o.Some? && o.value.0 == provider && cfg.hash(o.value.1) == challenge
    case Exchanged(_, id, provider, verifier, readAt) =>
      readAt <= n && Origin(notes, readAt, id) == Some((provider, verifier))
    case Completed(h, id, _, dev) => if dev then cfg.devMode else ExchangedBy(notes, n, h, id)
    case Polled(id, token) => Holds(notes, n, id, token)
    case _ => true
  }

  predicate PendingOk(cfg: Config, notes: seq<Note>, h: nat, p: Pending) {
    match p
    case Exchanging(id, provider, verifier, readAt) =>
      readAt <= |notes| && Origin(notes, readAt, id) == Some((provider, verifier))
    case AwaitingToken(id) => ExchangedBy(notes, |notes|, h, id)
    case CompletingDev(_) => cfg.devMode
    case Choosing(_, _) => true
  }

  predicate TableOk(s: State) {
    forall id <- s.table ::
      Origin(s.notes, |s.notes|, id) == Some((s.table[id].provider, s.table[id].verifier))
  }

  predicate TokensOk(s: State) {
    forall id <- s.table :: s.table[id].token != "" ==> Holds(s.notes, |s.notes|, id, s.table[id].token)
  }

  // Session ids are spent for good.
  predicate IdsOk(s: State) {
    && s.table.Keys <= s.used
    && (forall i :: 0 <= i < |s.notes| && Sets(s.notes[i], s.notes[i].id) ==> s.notes[i].id in s.used)
    && (forall i :: 0 <= i < |s.notes| && s.notes[i].Polled? ==>
          s.notes[i].id in s.used && s.notes[i].id !in s.table)
  }

  predicate PollsOnce(s: State) {
    && (forall i, j :: 0 <= i < j < |s.notes| && s.notes[i].Polled? && s.notes[j].Polled? ==>
          s.notes[i].id != s.notes[j].id)
  }

  predicate Inv(cfg: Config, s: State) {
    && TableOk(s) && TokensOk(s) && IdsOk(s) && PollsOnce(s)
    && (forall n :: 0 <= n < |s.notes| ==> NoteOk(cfg, s.notes, n))
    && (forall h <- s.pending :: PendingOk(cfg, s.notes, h, s.pending[h]))
  }

  lemma NotesGrow(cfg: Config, s: State, a: Action)
    requires Enabled(cfg, s, a)
    ensures s.notes <= NotesAfter(cfg, s, a) && |NotesAfter(cfg, s, a)| <= |s.notes| + 1
  {
  }

  lemma StepTable(cfg: Config, s: State, a: Action)
    requires TableOk(s) && Enabled(cfg, s, a)
    ensures TableOk(Apply(cfg, s, a))
  {
    var s' := Apply(cfg, s, a);
    NotesGrow(cfg, s, a);
    forall id | id in s'.table
      ensures Origin(s'.notes, |s'.notes|, id) == Some((s'.table[id].provider, s'.table[id].verifier))
    {
      OriginPrefix(s.notes, s'.notes, |s.notes|, id);
    }
  }

  // A token in the table was there before, and is still that of the last completion, or has just
  // been stored.
  lemma TokenSource(cfg: Config, s: State, a: Action, id: string)
    requires Enabled(cfg, s, a) && id in Apply(cfg, s, a).table && Apply(cfg, s, a).table[id].token != ""
    ensures var notes, token := Apply(cfg, s, a).notes, Apply(cfg, s, a).table[id].token;
            if |notes| > |s.notes| && notes[|s.notes|].Completed? && notes[|s.notes|].id == id
            then notes[|s.notes|].token == token
            else id in s.table && s.table[id].token == token
  {
  }

  lemma StepTokens(cfg: Config, s: State, a: Action)
    requires TokensOk(s) && Enabled(cfg, s, a)
    ensures TokensOk(Apply(cfg, s, a))
  {
    var s' := Apply(cfg, s, a);
    NotesGrow(cfg, s, a);
    forall id | id in s'.table && s'.table[id].token != ""
      ensures Holds(s'.notes, |s'.notes|, id, s'.table[id].token)
    {
      TokenSource(cfg, s, a, id);
      CompletionPrefix(s.notes, s'.notes, |s.notes|, id);
    }
  }

  lemma StepIds(cfg: Config, s: State, a: Action)
    requires IdsOk(s) && Enabled(cfg, s, a)
    ensures IdsOk(Apply(cfg, s, a))
  {
  }

  lemma StepPollsOnce(cfg: Config, s: State, a: Action)
    requires IdsOk(s) && PollsOnce(s) && Enabled(cfg, s, a)
    ensures PollsOnce(Apply(cfg, s, a))
  {
  }

  lemma StepNotes(cfg: Config, s: State, a: Action, n: nat)
    requires Inv(cfg, s) && Enabled(cfg, s, a) && n < |Apply(cfg, s, a).notes|
    ensures NoteOk(cfg, Apply(cfg, s, a).notes, n)
  {
    var notes := Apply(cfg, s, a).notes;
    NotesGrow(cfg, s, a);
    var note := notes[n];
    var m := if n < |s.notes| then n else |s.notes|;
    OriginPrefix(s.notes, notes, m, note.id);
    CompletionPrefix(s.notes, notes, m, note.id);
    if n < |s.notes| {
      assert NoteOk(cfg, s.notes, n);
      if note.Exchanged? {
        OriginPrefix(s.notes, notes, note.readAt, note.id);
      }
    } else if note.Started? {
      if Origin(s.notes, n, note.id).Some? {
        OriginIsOneNote(s.notes, n, note.id);
      }
    } else if a.Exchange? {
      assert PendingOk(cfg, s.notes, a.h, s.pending[a.h]);
      OriginPrefix(s.notes, notes, note.readAt, note.id);
    } else if a.DevComplete? || a.FinishCallback? {
      assert PendingOk(cfg, s.notes, a.h, s.pending[a.h]);
    }
  }

  lemma StepPending(cfg: Config, s: State, a: Action, h: nat)
    requires Inv(cfg, s) && Enabled(cfg, s, a) && h in Apply(cfg, s, a).pending
    ensures PendingOk(cfg, Apply(cfg, s, a).notes, h, Apply(cfg, s, a).pending[h])
  {
    var s' := Apply(cfg, s, a);
    var p := s'.pending[h];
    NotesGrow(cfg, s, a);
    if h in s.pending && s.pending[h] == p {
      assert PendingOk(cfg, s.notes, h, p);
      if p.Exchanging? {
        OriginPrefix(s.notes, s'.notes, p.readAt, p.id);
      }
    } else if p.Exchanging? {
      assert s'.notes == s.notes;
    } else if p.AwaitingToken? {
      assert s'.notes[|s.notes|].Exchanged?;
    }
  }

  lemma {:induction false} InvAlong(cfg: Config, tr: seq<State>, acts: seq<Action>, k: nat)
    requires IsRun(cfg, tr, acts) && k < |tr|
    ensures Inv(cfg, tr[k])
  {
    if k > 0 {
      var s, a := tr[k - 1], acts[k - 1];
      InvAlong(cfg, tr, acts, k - 1);
      StepTable(cfg, s, a);
      StepTokens(cfg, s, a);
      StepIds(cfg, s, a);
      StepPollsOnce(cfg, s, a);
      forall n | 0 <= n < |tr[k].notes| ensures NoteOk(cfg, tr[k].notes, n) {
        StepNotes(cfg, s, a, n);
      }
      forall h | h in tr[k].pending ensures PendingOk(cfg, tr[k].notes, h, tr[k].pending[h]) {
        StepPending(cfg, s, a, h);
      }
    }
  }

  // ---- Over whole runs ----

  // The provider and verifier sent to a token endpoint were put into the session together, by
  // one login or one choose.
  lemma ExchangeFromOneOrigin(cfg: Config, tr: seq<State>, acts: seq<Action>, k: nat, j: nat)
    requires IsRun(cfg, tr, acts) && k < |tr|
    requires j < |tr[k].notes| && tr[k].notes[j].Exchanged?
    ensures exists o ::
              && 0 <= o < j && Sets(tr[k].notes[o], tr[k].notes[j].id)
              && tr[k].notes[o].provider == tr[k].notes[j].provider
              && tr[k].notes[o].verifier == tr[k].notes[j].verifier
  {
    InvAlong(cfg, tr, acts, k);
    var notes := tr[k].notes;
    assert NoteOk(cfg, notes, j);
    OriginIsOneNote(notes, notes[j].readAt, notes[j].id);
  }

  // The provider is chosen for id between the notes lo and hi.
  predicate ChosenBetween(notes: seq<Note>, lo: nat, hi: nat, id: string)
    requires hi <= |notes|
  {
    exists c :: lo <= c < hi && notes[c].Chosen? && notes[c].id == id
  }

  // Once a session has its first provider, only a choose changes where it comes from.
  lemma OriginUnlessChosen(cfg: Config, notes: seq<Note>, lo: nat, hi: nat, id: string)
    requires lo <= hi <= |notes| && Origin(notes, lo, id).Some?
    requires forall n :: 0 <= n < |notes| ==> NoteOk(cfg, notes, n)
    requires !ChosenBetween(notes, lo, hi, id)
    ensures Origin(notes, hi, id) == Origin(notes, lo, id)
  {
    forall c | lo <= c < hi ensures !Sets(notes[c], id) {
      OriginStays(notes, lo, c, id);
      assert NoteOk(cfg, notes, c);
    }
    OriginUnchanged(notes, lo, hi, id);
  }

  // The verifiers put into session id hash to different challenges: they are random, and hash
  // does not collide.
  predicate DistinctVerifiers(cfg: Config, notes: seq<Note>, id: string) {
    forall a, b :: 0 <= a < b < |notes| && Sets(notes[a], id) && Sets(notes[b], id) ==>
      cfg.hash(notes[a].verifier) != cfg.hash(notes[b].verifier)
  }

  // After a choose at c, the session's provider and verifier are from c or later.
  lemma {:induction false} OriginIsLater(notes: seq<Note>, c: nat, n: nat, id: string)
    requires c < n <= |notes| && Sets(notes[c], id)
    ensures exists k ::
              && c <= k < n && Sets(notes[k], id)
              && Origin(notes, n, id) == Some((notes[k].provider, notes[k].verifier))
  {
    if !Sets(notes[n - 1], id) {
      OriginIsLater(notes, c, n - 1, id);
    }
  }

  lemma OriginChangesWhenChosen(cfg: Config, notes: seq<Note>, lo: nat, hi: nat, id: string)
    requires lo <= hi <= |notes| && Origin(notes, lo, id).Some?
    requires DistinctVerifiers(cfg, notes, id) && ChosenBetween(notes, lo, hi, id)
    ensures Origin(notes, hi, id).Some?
    ensures cfg.hash(Origin(notes, hi, id).value.1) != cfg.hash(Origin(notes, lo, id).value.1)
  {
    var c :| lo <= c < hi && notes[c].Chosen? && notes[c].id == id;
    OriginIsOneNote(notes, lo, id);
    OriginIsLater(notes, c, hi, id);
  }

  // The exchange answers the redirect: same provider, and a verifier that hashes to the challenge.
  predicate Answers(cfg: Config, exchanged: Note, authorized: Note)
    requires exchanged.Exchanged? && authorized.Authorized?
  {
    exchanged.provider == authorized.provider && cfg.hash(exchanged.verifier) == authorized.challenge
  }

  // Sections 4.3 and 4.5 of RFC 7636: unless the provider is chosen again between the redirect
  // and the callback's read, whichever comes first, the verifier sent in the exchange hashes to
  // the challenge sent in the redirect, and both go to the same provider.
  lemma VerifierMatchesChallenge(cfg: Config, tr: seq<State>, acts: seq<Action>, k: nat, i: nat, j: nat)
    requires IsRun(cfg, tr, acts) && k < |tr|
    requires i < |tr[k].notes| && j < |tr[k].notes|
    requires tr[k].notes[i].Authorized? && tr[k].notes[j].Exchanged? && tr[k].notes[i].id == tr[k].notes[j].id
    ensures tr[k].notes[j].readAt <= j
    ensures var notes, id, readAt := tr[k].notes, tr[k].notes[i].id, tr[k].notes[j].readAt;
            && !ChosenBetween(notes, i, readAt, id) && !ChosenBetween(notes, readAt, i, id) ==>
              Answers(cfg, notes[j], notes[i])
  {
    InvAlong(cfg, tr, acts, k);
    var notes, id, readAt := tr[k].notes, tr[k].notes[i].id, tr[k].notes[j].readAt;
    assert NoteOk(cfg, notes, i) && NoteOk(cfg, notes, j);
    if i <= readAt && !ChosenBetween(notes, i, readAt, id) {
      OriginUnlessChosen(cfg, notes, i, readAt, id);
    } else if readAt < i && !ChosenBetween(notes, readAt, i, id) {
      OriginUnlessChosen(cfg, notes, readAt, i, id);
    }
  }

  // With distinct verifiers that is the only way: the exchange answers the redirect if and only
  // if the provider was not chosen in between.
  lemma MatchesExactlyUnlessChosen(cfg: Config, tr: seq<State>, acts: seq<Action>, k: nat, i: nat, j: nat)
    requires IsRun(cfg, tr, acts) && k < |tr|
    requires i < |tr[k].notes| && j < |tr[k].notes|
    requires tr[k].notes[i].Authorized? && tr[k].notes[j].Exchanged? && tr[k].notes[i].id == tr[k].notes[j].id
    requires DistinctVerifiers(cfg, tr[k].notes, tr[k].notes[i].id)
    ensures tr[k].notes[j].readAt <= j
    ensures var notes, id, readAt := tr[k].notes, tr[k].notes[i].id, tr[k].notes[j].readAt;
            Answers(cfg, notes[j], notes[i])
            <==> !ChosenBetween(notes, i, readAt, id) && !ChosenBetween(notes, readAt, i, id)
  {
    VerifierMatchesChallenge(cfg, tr, acts, k, i, j);
    InvAlong(cfg, tr, acts, k);
    var notes, id, readAt := tr[k].notes, tr[k].notes[i].id, tr[k].notes[j].readAt;
    assert NoteOk(cfg, notes, i) && NoteOk(cfg, notes, j);
    if ChosenBetween(notes, i, readAt, id) {
      OriginChangesWhenChosen(cfg, notes, i, readAt, id);
    } else if ChosenBetween(notes, readAt, i, id) {
      OriginChangesWhenChosen(cfg, notes, readAt, i, id);
    }
  }

  // The token a poll gets is the last one stored in its session, and in production the callback
  // that stored it had itself made an exchange for that very session just before.
  lemma PolledTokenWasExchanged(cfg: Config, tr: seq<State>, acts: seq<Action>, k: nat, j: nat)
    requires IsRun(cfg, tr, acts) && k < |tr| && j < |tr[k].notes| && tr[k].notes[j].Polled?
    ensures exists i ::
              && 0 <= i < j && tr[k].notes[i].Completed?
              && tr[k].notes[i].id == tr[k].notes[j].id && tr[k].notes[i].token == tr[k].notes[j].token
              && (forall c :: i < c < j ==> !(tr[k].notes[c].Completed? && tr[k].notes[c].id == tr[k].notes[j].id))
              && (!cfg.devMode ==>
                    !tr[k].notes[i].dev && ExchangedBy(tr[k].notes, i, tr[k].notes[i].h, tr[k].notes[j].id))
  {
    InvAlong(cfg, tr, acts, k);
    var notes := tr[k].notes;
    assert NoteOk(cfg, notes, j);
    var i := Completion(notes, j, notes[j].id).value;
    assert NoteOk(cfg, notes, i);
    CompletionIsLast(notes, j, notes[j].id);
  }

  // A login session hands its token to at most one poll.
  lemma PolledOnce(cfg: Config, tr: seq<State>, acts: seq<Action>, k: nat, i: nat, j: nat)
    requires IsRun(cfg, tr, acts) && k < |tr| && i < |tr[k].notes| && j < |tr[k].notes|
    requires tr[k].notes[i].Polled? && tr[k].notes[j].Polled? && tr[k].notes[i].id == tr[k].notes[j].id
    ensures i == j
  {
    InvAlong(cfg, tr, acts, k);
  }

  lemma Extend(cfg: Config, tr: seq<State>, acts: seq<Action>, a: Action)
    returns (tr': seq<State>, acts': seq<Action>)
    requires IsRun(cfg, tr, acts) && Enabled(cfg, tr[|acts|], a)
    ensures IsRun(cfg, tr', acts') && tr <= tr' && |acts'| == |acts| + 1
    ensures tr'[|acts'|] == Apply(cfg, tr[|acts|], a)
  {
    tr', acts' := tr + [Apply(cfg, tr[|acts|], a)], acts + [a];
    forall i | 0 <= i < |acts'|
      ensures Enabled(cfg, tr'[i], acts'[i]) && tr'[i + 1] == Apply(cfg, tr'[i], acts'[i])
    {
      if i < |acts| {
        assert tr'[i] == tr[i] && tr'[i + 1] == tr[i + 1] && acts'[i] == acts[i];
      }
    }
  }

  // A provider is chosen on the picker page.
  lemma FirstChoice(cfg: Config, provider: string, first: string) returns (tr: seq<State>, acts: seq<Action>)
    requires provider in cfg.providers && cfg.ttl >= 0
    ensures IsRun(cfg, tr, acts)
    ensures var s := tr[|acts|];
            && s.table == map["s" := Session(provider, first, "cli", "", 0)] && s.now == 0 && s.pending == map[]
            && s.notes == [Started("s", "", ""), Chosen("s", provider, first)]
  {
    tr, acts := [Init()], [];
    tr, acts := Extend(cfg, tr, acts, CliStart("s"));
    tr, acts := Extend(cfg, tr, acts, Choose(0, "s", provider));
    tr, acts := Extend(cfg, tr, acts, StoreChoice(0, first));
  }

  // And the browser is redirected to it.
  lemma ChooseAndAuthorize(cfg: Config, provider: string, first: string)
    returns (tr: seq<State>, acts: seq<Action>)
    requires provider in cfg.providers && provider in cfg.authEndpoints && cfg.ttl >= 0
    ensures IsRun(cfg, tr, acts)
    ensures var s := tr[|acts|];
            && s.table == map["s" := Session(provider, first, "cli", "", 0)] && s.now == 0 && s.pending == map[]
            && s.notes == [Started("s", "", ""), Chosen("s", provider, first),
                           Authorized("s", provider, cfg.hash(first))]
  {
    tr, acts := FirstChoice(cfg, provider, first);
    tr, acts := Extend(cfg, tr, acts, Authorize("s"));
  }

  // Then a provider is chosen again.
  lemma ChooseAgain(cfg: Config, provider: string, first: string, second: string)
    returns (tr: seq<State>, acts: seq<Action>)
    requires provider in cfg.providers && provider in cfg.authEndpoints && cfg.ttl >= 0
    ensures IsRun(cfg, tr, acts)
    ensures var s := tr[|acts|];
            && s.table == map["s" := Session(provider, second, "cli", "", 0)] && s.now == 0 && s.pending == map[]
            && s.notes == [Started("s", "", ""), Chosen("s", provider, first),
                           Authorized("s", provider, cfg.hash(first)), Chosen("s", provider, second)]
  {
    tr, acts := ChooseAndAuthorize(cfg, provider, first);
    tr, acts := Extend(cfg, tr, acts, Choose(0, "s", provider));
    tr, acts := Extend(cfg, tr, acts, StoreChoice(0, second));
  }

  // The condition is needed: choosing again after the redirect makes the callback of the first
  // redirect send the second verifier.
  lemma ChoosingAgainMismatches(cfg: Config, provider: string, first: string, second: string)
    returns (tr: seq<State>, acts: seq<Action>)
    requires provider in cfg.providers && provider in cfg.authEndpoints && provider in cfg.tokenEndpoints
    requires cfg.ttl >= 0 && cfg.hash(first) != cfg.hash(second)
    ensures IsRun(cfg, tr, acts)
    ensures var notes := tr[|acts|].notes;
            && |notes| == 5
            && notes[2] == Authorized("s", provider, cfg.hash(first))
            && notes[3] == Chosen("s", provider, second)
            && notes[4] == Exchanged(0, "s", provider, second, 4)
            && !Answers(cfg, notes[4], notes[2])
  {
    tr, acts := ChooseAgain(cfg, provider, first, second);
    tr, acts := Extend(cfg, tr, acts, Callback(0, "s"));
    tr, acts := Extend(cfg, tr, acts, Exchange(0));
  }

  // ---- What each handler gets, by the history ----

  // The three ways a session is created, and the four handlers that look one up with Get.
  predicate Creates(a: Action, id: string) {
    (a.CliStart? || a.BeginLogin? || a.DevLogin?) && a.id == id
  }

  predicate Gets(a: Action, id: string) {
    (a.ShowPicker? || a.Choose? || a.Authorize? || a.Callback?) && a.id == id
  }

  // A token has been stored for id among the notes.
  predicate IsCompleted(notes: seq<Note>, id: string) {
    exists i :: 0 <= i < |notes| && notes[i].Completed? && notes[i].id == id
  }

  // Action a takes the session id, created at the given time, out of the table: a sweep or a
  // lookup notices that it has expired, or a poll takes its token.
  predicate TakesOut(cfg: Config, s: State, a: Action, id: string, createdAt: int) {
    || ((a.SweepNow? || Gets(a, id)) && s.now - createdAt > cfg.ttl)
    || (a == Poll(id) && IsCompleted(s.notes, id))
  }

  // Session id was created by action c and nothing before k has taken it out.
  predicate OpenSince(cfg: Config, tr: seq<State>, acts: seq<Action>, c: nat, k: nat, id: string)
    requires |tr| == |acts| + 1 && k < |tr|
  {
    && c < k && Creates(acts[c], id)
    && forall m :: c < m < k ==> !TakesOut(cfg, tr[m], acts[m], id, tr[c].now)
  }

  // Whatever has an id, has one that was given out.
  predicate IdsSpent(s: State) {
    && (forall i :: 0 <= i < |s.notes| && s.notes[i].Completed? ==> s.notes[i].id in s.used)
    && (forall h <- s.pending :: s.pending[h].id in s.used)
    && s.table.Keys <= s.used
  }

  lemma IdsSpentStep(cfg: Config, s: State, a: Action)
    requires IdsSpent(s) && Enabled(cfg, s, a)
    ensures IdsSpent(Apply(cfg, s, a))
  {
  }

  // A session has a token exactly when a completion has been noted for it.
  predicate TokensNoted(s: State) {
    IdsSpent(s) && forall id <- s.table :: s.table[id].token != "" <==> IsCompleted(s.notes, id)
  }

  lemma CompletedStep(notes: seq<Note>, note: Note, id: string)
    ensures IsCompleted(notes + [note], id) <==> IsCompleted(notes, id) || (note.Completed? && note.id == id)
  {
    var more := notes + [note];
    assert more[|notes|] == note;
    forall i | 0 <= i < |notes| ensures more[i] == notes[i] {}
  }

  lemma NoteStep(cfg: Config, s: State, a: Action, id: string)
    requires Enabled(cfg, s, a)
    ensures IsCompleted(Apply(cfg, s, a).notes, id)
       <==> || IsCompleted(s.notes, id)
            || ((a.DevComplete? || a.FinishCallback?) && s.pending[a.h].id == id && id in s.table)
  {
    var notes := Apply(cfg, s, a).notes;
    NotesGrow(cfg, s, a);
    if |notes| > |s.notes| {
      assert notes == s.notes + [notes[|s.notes|]];
      CompletedStep(s.notes, notes[|s.notes|], id);
    } else {
      assert notes == s.notes;
    }
  }

  lemma TokensNotedStep(cfg: Config, s: State, a: Action)
    requires TokensNoted(s) && Enabled(cfg, s, a)
    ensures TokensNoted(Apply(cfg, s, a))
  {
    var s' := Apply(cfg, s, a);
    IdsSpentStep(cfg, s, a);
    forall id | id in s'.table ensures s'.table[id].token != "" <==> IsCompleted(s'.notes, id) {
      NoteStep(cfg, s, a, id);
    }
  }

  // Presence in the table, in one step.
  predicate PresenceKept(cfg: Config, s: State, a: Action, s': State, id: string) {
    && (id in s'.table <==>
          Creates(a, id) || (id in s.table && !TakesOut(cfg, s, a, id, s.table[id].createdAt)))
    && (id in s'.table && Creates(a, id) ==> s'.table[id].createdAt == s.now)
    && (id in s'.table && !Creates(a, id) ==> id in s.table && s'.table[id].createdAt == s.table[id].createdAt)
    && (Creates(a, id) ==> id !in s.used)
  }

  // What one table operation does to the presence of a session.
  lemma AfterPresence(t: Table, op: Op, now: int, ttl: int, id: string)
    ensures id in After(t, op, now, ttl)
       <==> || (op.Create? && op.id == id)
            || (id in t && !((op.Sweep? || op == Get(id)) && now - t[id].createdAt > ttl)
                && !(op == Consume(id) && t[id].token != ""))
    ensures id in After(t, op, now, ttl) ==>
              After(t, op, now, ttl)[id].createdAt == if op.Create? && op.id == id then now else t[id].createdAt
  {
  }

  lemma PresenceStep(cfg: Config, s: State, a: Action, id: string)
    requires TokensNoted(s) && Enabled(cfg, s, a)
    ensures PresenceKept(cfg, s, a, Apply(cfg, s, a), id)
  {
    if OpOf(s, a).Some? {
      AfterPresence(s.table, OpOf(s, a).value, s.now, cfg.ttl, id);
    }
  }

  lemma {:induction false} TokensNotedAlong(cfg: Config, tr: seq<State>, acts: seq<Action>, k: nat)
    requires IsRun(cfg, tr, acts) && k < |tr|
    ensures TokensNoted(tr[k])
  {
    if k > 0 {
      TokensNotedAlong(cfg, tr, acts, k - 1);
      TokensNotedStep(cfg, tr[k - 1], acts[k - 1]);
    }
  }

  lemma {:induction false} PresenceAlong(
    cfg: Config, tr: seq<State>, acts: seq<Action>, c: nat, k: nat, id: string)
    requires |tr| == |acts| + 1 && c < k < |tr| && Creates(acts[c], id)
    requires forall j :: c <= j < k ==> PresenceKept(cfg, tr[j], acts[j], tr[j + 1], id)
    requires forall j :: c < j < k ==> id in tr[j].used
    ensures id in tr[k].table <==> OpenSince(cfg, tr, acts, c, k, id)
    ensures id in tr[k].table ==> tr[k].table[id].createdAt == tr[c].now
    decreases k
  {
    if c == k - 1 {
      assert PresenceKept(cfg, tr[c], acts[c], tr[c + 1], id);
    } else {
      PresenceAlong(cfg, tr, acts, c, k - 1, id);
      assert PresenceKept(cfg, tr[k - 1], acts[k - 1], tr[k - 1 + 1], id);
    }
  }

  lemma {:induction false} UsedStays(cfg: Config, tr: seq<State>, acts: seq<Action>, i: nat, k: nat, id: string)
    requires IsRun(cfg, tr, acts) && i <= k < |tr| && id in tr[i].used
    ensures id in tr[k].used
    decreases k
  {
    if i < k {
      UsedStays(cfg, tr, acts, i, k - 1, id);
    }
  }

  // From its create on, a session is there exactly until an expiry is noticed or its token taken.
  lemma ThereExactlyWhileOpen(cfg: Config, tr: seq<State>, acts: seq<Action>, c: nat, k: nat, id: string)
    requires IsRun(cfg, tr, acts) && c < k < |tr| && Creates(acts[c], id)
    ensures id in tr[k].table <==> OpenSince(cfg, tr, acts, c, k, id)
    ensures id in tr[k].table ==> tr[k].table[id].createdAt == tr[c].now
  {
    forall j | c <= j < k ensures PresenceKept(cfg, tr[j], acts[j], tr[j + 1], id) {
      TokensNotedAlong(cfg, tr, acts, j);
      PresenceStep(cfg, tr[j], acts[j], id);
    }
    forall j | c < j < k ensures id in tr[j].used {
      UsedStays(cfg, tr, acts, c + 1, j, id);
    }
    PresenceAlong(cfg, tr, acts, c, k, id);
  }

  lemma {:induction false} CompletedHasPlace(notes: seq<Note>, n: nat, id: string)
    requires n <= |notes|
    ensures Completion(notes, n, id).Some? <==> exists i :: 0 <= i < n && notes[i].Completed? && notes[i].id == id
  {
    if n > 0 {
      CompletedHasPlace(notes, n - 1, id);
    }
  }

  // A poll gets a token if and only if the session is still open and a token has been stored in
  // it, and then the one stored last.
  lemma PollGetsExactly(cfg: Config, tr: seq<State>, acts: seq<Action>, c: nat, k: nat, id: string)
    requires IsRun(cfg, tr, acts) && c < k < |acts| && Creates(acts[c], id) && acts[k] == Poll(id)
    ensures var notes := tr[k].notes;
            var at := Completion(notes, |notes|, id);
            tr[k + 1].notes
            == if OpenSince(cfg, tr, acts, c, k, id) && at.Some? then notes + [Polled(id, notes[at.value].token)]
               else notes
  {
    ThereExactlyWhileOpen(cfg, tr, acts, c, k, id);
    InvAlong(cfg, tr, acts, k);
    TokensNotedAlong(cfg, tr, acts, k);
    CompletedHasPlace(tr[k].notes, |tr[k].notes|, id);
  }

  // The session is open and not older than the time to live.
  predicate LiveSince(cfg: Config, tr: seq<State>, acts: seq<Action>, c: nat, k: nat, id: string)
    requires |tr| == |acts| + 1 && k < |tr|
  {
    OpenSince(cfg, tr, acts, c, k, id) && tr[k].now - tr[c].now <= cfg.ttl
  }

  // The browser is redirected if and only if the session is live and its provider has an
  // authorize endpoint, with the challenge of the verifier last put into the session.
  lemma AuthorizeRedirectsExactly(cfg: Config, tr: seq<State>, acts: seq<Action>, c: nat, k: nat, id: string)
    requires IsRun(cfg, tr, acts) && c < k < |acts| && Creates(acts[c], id) && acts[k] == Authorize(id)
    ensures Origin(tr[k].notes, |tr[k].notes|, id).Some? || !LiveSince(cfg, tr, acts, c, k, id)
    ensures var notes := tr[k].notes;
            var o := Origin(notes, |notes|, id);
            tr[k + 1].notes
            == if LiveSince(cfg, tr, acts, c, k, id) && o.value.0 in cfg.authEndpoints
               then notes + [Authorized(id, o.value.0, cfg.hash(o.value.1))] else notes
  {
    ThereExactlyWhileOpen(cfg, tr, acts, c, k, id);
    InvAlong(cfg, tr, acts, k);
  }

  // A callback goes on to the exchange if and only if the session is live and its provider has a
  // token endpoint, with the provider and verifier last put into the session.
  lemma CallbackProceedsExactly(cfg: Config, tr: seq<State>, acts: seq<Action>, c: nat, k: nat, id: string, h: nat)
    requires IsRun(cfg, tr, acts) && c < k < |acts| && Creates(acts[c], id) && acts[k] == Callback(h, id)
    ensures Origin(tr[k].notes, |tr[k].notes|, id).Some? || !LiveSince(cfg, tr, acts, c, k, id)
    ensures var o := Origin(tr[k].notes, |tr[k].notes|, id);
            tr[k + 1].pending
            == if LiveSince(cfg, tr, acts, c, k, id) && o.value.0 in cfg.tokenEndpoints
               then tr[k].pending[h := Exchanging(id, o.value.0, o.value.1, |tr[k].notes|)] else tr[k].pending
  {
    ThereExactlyWhileOpen(cfg, tr, acts, c, k, id);
    InvAlong(cfg, tr, acts, k);
  }

  // A provider choice goes on if and only if the session is live.
  lemma ChooseProceedsExactly(
    cfg: Config, tr: seq<State>, acts: seq<Action>, c: nat, k: nat, id: string, h: nat, provider: string)
    requires IsRun(cfg, tr, acts) && c < k < |acts| && Creates(acts[c], id) && acts[k] == Choose(h, id, provider)
    ensures tr[k + 1].pending
         == if LiveSince(cfg, tr, acts, c, k, id) then tr[k].pending[h := Choosing(id, provider)] else tr[k].pending
  {
    ThereExactlyWhileOpen(cfg, tr, acts, c, k, id);
  }

  // What a handler finally stores takes effect if and only if the session is still open then,
  // whether or not it has expired: the provider it chose, or the token it got.
  lemma StoresExactlyWhileOpen(cfg: Config, tr: seq<State>, acts: seq<Action>, c: nat, k: nat, id: string)
    requires IsRun(cfg, tr, acts) && c < k < |acts| && Creates(acts[c], id)
    requires acts[k].StoreChoice? || acts[k].DevComplete? || acts[k].FinishCallback?
    requires tr[k].pending[acts[k].h].id == id
    ensures var p := tr[k].pending[acts[k].h];
            tr[k + 1].notes
            == if !OpenSince(cfg, tr, acts, c, k, id) then tr[k].notes
               else
                 tr[k].notes + [match acts[k]
                                case StoreChoice(_, verifier) => Chosen(id, p.provider, verifier)
                                case DevComplete(h, token) => Completed(h, id, token, true)
                                case FinishCallback(h, token) => Completed(h, id, token, false)]
  {
    ThereExactlyWhileOpen(cfg, tr, acts, c, k, id);
  }

  // A session gets its provider without a verifier by a start from the command line (none yet) or,
  // in development mode only, by a developer's login; otherwise it is a configured one.
  predicate FromKnownProvider(cfg: Config, note: Note) {
    && (note.Started? ==>
          || (note.provider == "" && note.verifier == "")
          || (note.provider == "dev" && note.verifier == "" && cfg.devMode)
          || (note.provider != "dev" && note.provider in cfg.providers))
    && (note.Chosen? ==> note.provider in cfg.providers)
  }

  predicate ProvidersOk(cfg: Config, s: State) {
    && (forall i :: 0 <= i < |s.notes| ==> FromKnownProvider(cfg, s.notes[i]))
    && (forall h <- s.pending :: s.pending[h].Choosing? ==> s.pending[h].provider in cfg.providers)
  }

  lemma ProvidersStep(cfg: Config, s: State, a: Action)
    requires ProvidersOk(cfg, s) && Enabled(cfg, s, a)
    ensures ProvidersOk(cfg, Apply(cfg, s, a))
  {
  }

  // Logins and choices are for configured providers only.
  lemma {:induction false} OnlyConfiguredProviders(cfg: Config, tr: seq<State>, acts: seq<Action>, k: nat)
    requires IsRun(cfg, tr, acts) && k < |tr|
    ensures ProvidersOk(cfg, tr[k])
  {
    if k > 0 {
      OnlyConfiguredProviders(cfg, tr, acts, k - 1);
      ProvidersStep(cfg, tr[k - 1], acts[k - 1]);
    }
  }

  // ---- Handlers ----

  predicate Starts(a: Action, h: nat) {
    (a.DevLogin? || a.Choose? || a.Callback?) && a.h == h
  }

  predicate Finishes(a: Action, h: nat) {
    (a.StoreChoice? || a.DevComplete? || a.FinishCallback? || a.GiveUp?) && a.h == h
  }

  predicate HandlerKept(s: State, a: Action, s': State, h: nat) {
    && (h in s'.pending ==> (h in s.pending || Starts(a, h)) && !Finishes(a, h))
    && (h in s.pending && !Finishes(a, h) ==> h in s'.pending && s'.pending[h].id == s.pending[h].id)
  }

  lemma HandlerStep(cfg: Config, s: State, a: Action, h: nat)
    requires Enabled(cfg, s, a)
    ensures HandlerKept(s, a, Apply(cfg, s, a), h)
  {
  }

  lemma {:induction false} StartedSince(tr: seq<State>, acts: seq<Action>, i: nat, k: nat, h: nat)
    requires |tr| == |acts| + 1 && i < k < |tr| && Finishes(acts[i], h) && h in tr[k].pending
    requires forall j :: 0 <= j < k ==> HandlerKept(tr[j], acts[j], tr[j + 1], h)
    ensures exists j :: i < j < k && Starts(acts[j], h)
    decreases k
  {
    assert HandlerKept(tr[k - 1], acts[k - 1], tr[k - 1 + 1], h);
    if !Starts(acts[k - 1], h) && i < k - 1 {
      StartedSince(tr, acts, i, k - 1, h);
    }
  }

  // A handler finishes once: between two things that finish a handler under the same number, a new
  // one has started. In particular no choice or token is stored twice by one handler.
  lemma HandlersFinishOnce(cfg: Config, tr: seq<State>, acts: seq<Action>, i: nat, k: nat, h: nat)
    requires IsRun(cfg, tr, acts) && i < k < |acts| && Finishes(acts[i], h) && Finishes(acts[k], h)
    ensures exists j :: i < j < k && Starts(acts[j], h)
  {
    forall j | 0 <= j < k ensures HandlerKept(tr[j], acts[j], tr[j + 1], h) {
      HandlerStep(cfg, tr[j], acts[j], h);
    }
    StartedSince(tr, acts, i, k, h);
  }

  // ---- A login can always be carried through ----

  lemma LoginRedirects(
    cfg: Config, tr: seq<State>, acts: seq<Action>, id: string, provider: string, verifier: string, source: string)
    returns (tr': seq<State>, acts': seq<Action>)
    requires IsRun(cfg, tr, acts) && id !in tr[|acts|].used && cfg.ttl >= 0
    requires provider in cfg.providers && provider in cfg.authEndpoints && provider != "dev"
    ensures IsRun(cfg, tr', acts') && tr <= tr' && tr'[|acts'|].pending == tr[|acts|].pending
    ensures var s, s' := tr[|acts|], tr'[|acts'|];
            && s'.table == s.table[id := Session(provider, verifier, source, "", s.now)] && s'.now == s.now
            && s'.notes == s.notes + [Started(id, provider, verifier), Authorized(id, provider, cfg.hash(verifier))]
  {
    tr', acts' := Extend(cfg, tr, acts, BeginLogin(id, provider, verifier, source));
    tr', acts' := Extend(cfg, tr', acts', Authorize(id));
  }

  lemma CallbackCompletes(cfg: Config, tr: seq<State>, acts: seq<Action>, id: string, h: nat, token: string)
    returns (tr': seq<State>, acts': seq<Action>)
    requires IsRun(cfg, tr, acts) && id in tr[|acts|].table && h !in tr[|acts|].pending
    requires !Expired(tr[|acts|].table[id], tr[|acts|].now, cfg.ttl) && token != ""
    requires tr[|acts|].table[id].provider in cfg.tokenEndpoints
    ensures IsRun(cfg, tr', acts') && tr <= tr'
    ensures tr'[|acts'|].table == tr[|acts|].table[id := tr[|acts|].table[id].(token := token)]
    ensures tr'[|acts'|].now == tr[|acts|].now
    ensures var sess, n := tr[|acts|].table[id], |tr[|acts|].notes|;
            tr'[|acts'|].notes
            == tr[|acts|].notes
               + [Exchanged(h, id, sess.provider, sess.verifier, n), Completed(h, id, token, false)]
  {
    tr', acts' := Extend(cfg, tr, acts, Callback(h, id));
    tr', acts' := Extend(cfg, tr', acts', Exchange(h));
    tr', acts' := Extend(cfg, tr', acts', FinishCallback(h, token));
  }

  // Whatever else is going on, a login with a configured provider leads from its start over the
  // redirect and the callback to the poll that gets the token.
  lemma AnyoneCanLogIn(
    cfg: Config, tr: seq<State>, acts: seq<Action>, id: string, h: nat,
    provider: string, verifier: string, source: string, token: string)
    returns (tr': seq<State>, acts': seq<Action>)
    requires IsRun(cfg, tr, acts) && id !in tr[|acts|].used && h !in tr[|acts|].pending
    requires provider in cfg.providers && provider in cfg.authEndpoints && provider in cfg.tokenEndpoints
    requires provider != "dev" && token != "" && cfg.ttl >= 0
    ensures IsRun(cfg, tr', acts') && tr <= tr'
    ensures exists at ::
              tr'[|acts'|].notes
              == tr[|acts|].notes
                 + [Started(id, provider, verifier), Authorized(id, provider, cfg.hash(verifier)),
                    Exchanged(h, id, provider, verifier, at), Completed(h, id, token, false), Polled(id, token)]
  {
    tr', acts' := LoginRedirects(cfg, tr, acts, id, provider, verifier, source);
    tr', acts' := CallbackCompletes(cfg, tr', acts', id, h, token);
    tr', acts' := Extend(cfg, tr', acts', Poll(id));
  }

  // The clock shows what has passed.
  function Elapsed(acts: seq<Action>, k: nat): nat
    requires k <= |acts|
  {
    if k == 0 then 0 else Elapsed(acts, k - 1) + if acts[k - 1].Pass? then acts[k - 1].time else 0
  }

  lemma {:induction false} ClockShowsElapsed(cfg: Config, tr: seq<State>, acts: seq<Action>, k: nat)
    requires IsRun(cfg, tr, acts) && k < |tr|
    ensures tr[k].now == Elapsed(acts, k)
  {
    if k > 0 {
      ClockShowsElapsed(cfg, tr, acts, k - 1);
    }
  }

  // A session that nobody completes or polls can go as well, when its time to live is over: by a
  // sweep, or because somebody asks for its picker page.
  lemma SessionCanExpire(cfg: Config, tr: seq<State>, acts: seq<Action>, id: string, bySweep: bool)
    returns (tr': seq<State>, acts': seq<Action>)
    requires IsRun(cfg, tr, acts) && id in tr[|acts|].table
    ensures IsRun(cfg, tr', acts') && tr <= tr' && id !in tr'[|acts'|].table
    ensures tr'[|acts'|].notes == tr[|acts|].notes && tr'[|acts'|].pending == tr[|acts|].pending
  {
    var late := tr[|acts|].table[id].createdAt + cfg.ttl + 1 - tr[|acts|].now;
    tr', acts' := Extend(cfg, tr, acts, Pass(if late > 0 then late else 0));
    tr', acts' := Extend(cfg, tr', acts', if bySweep then SweepNow else ShowPicker(id));
  }

  // And a handler can give up at any time, which changes nothing for anybody else.
  lemma HandlerCanGiveUp(cfg: Config, tr: seq<State>, acts: seq<Action>, h: nat)
    returns (tr': seq<State>, acts': seq<Action>)
    requires IsRun(cfg, tr, acts) && h in tr[|acts|].pending
    ensures IsRun(cfg, tr', acts') && tr <= tr'
    ensures tr'[|acts'|] == tr[|acts|].(pending := tr[|acts|].pending - {h})
  {
    tr', acts' := Extend(cfg, tr, acts, GiveUp(h));
  }

  // In development mode a login without a provider is completed at once.
  lemma DeveloperCanLogIn(
    cfg: Config, tr: seq<State>, acts: seq<Action>, id: string, h: nat, source: string, token: string)
    returns (tr': seq<State>, acts': seq<Action>)
    requires IsRun(cfg, tr, acts) && id !in tr[|acts|].used && h !in tr[|acts|].pending
    requires cfg.devMode && token != ""
    ensures IsRun(cfg, tr', acts') && tr <= tr'
    ensures tr'[|acts'|].notes
         == tr[|acts|].notes + [Started(id, "dev", ""), Completed(h, id, token, true), Polled(id, token)]
  {
    tr', acts' := Extend(cfg, tr, acts, DevLogin(h, id, source));
    tr', acts' := Extend(cfg, tr', acts', DevComplete(h, token));
    tr', acts' := Extend(cfg, tr', acts', Poll(id));
  }
}
