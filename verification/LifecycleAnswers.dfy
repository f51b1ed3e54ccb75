/** What each lifecycle operation comes to when it starts from the stored record and every call and
  write succeeds: it is not only safe, it does its work. */
module LifecycleAnswers {
  import opened Prelude
  import opened LifecycleModel

  type Answers = seq<(Reply, int)>

  predicate AllOk(answers: Answers) { forall i :: 0 <= i < |answers| ==> answers[i].0 == Ok }

  predicate Holds(s: System, c: Credential) { c.id in s.store.live && s.store.live[c.id] == c }

  /** A task run by itself, answer by answer. */
  function Play(cfg: Config, s: System, t: Task, answers: Answers): (System, Task)
    decreases |answers|
  {
    if answers == [] then (s, t)
    else
      var (s1, t1) := Advance(cfg, s, t, answers[0].0, answers[0].1);
      Play(cfg, s1, t1, answers[1..])
  }

  lemma {:induction false} DoneStays(cfg: Config, s: System, answers: Answers)
    ensures Play(cfg, s, Done, answers) == (s, Done)
    decreases |answers|
  {
    if answers != [] {
      assert Advance(cfg, s, Done, answers[0].0, answers[0].1) == (s, Done);
      DoneStays(cfg, s, answers[1..]);
    }
  }

  lemma OneStep(cfg: Config, s: System, t: Task, answers: Answers)
    requires answers != [] && AllOk(answers)
    ensures AllOk(answers[1..])
    ensures var (s1, t1) := Advance(cfg, s, t, Ok, answers[0].1); Play(cfg, s, t, answers) == Play(cfg, s1, t1, answers[1..])
  {}

  /** The store with the record of an id replaced. */
  function Replaced(s: System, c: Credential): System {
    s.(store := s.store.(live := s.store.live[c.id := c]), written := s.written[(c.id, c.version) := c])
  }

  /** A write whose record holds goes through when it keeps a terminal state. */
  lemma WriteStep(cfg: Config, s: System, t: Task, content: int)
    requires Writes(t) && Holds(s, t.c)
    requires var d := Intended(cfg, t, content); d.id == t.c.id && (Terminal(t.c) ==> d.life == t.c.life)
    ensures var d := Intended(cfg, t, content);
      Advance(cfg, s, t, Ok, content) == (Replaced(s, d), Resume(cfg, t, d, true)) && Holds(Replaced(s, d), d)
  {}

  /** One answered write. */
  lemma {:induction false} WriteGoes(cfg: Config, s: System, t: Task, answers: Answers) returns (r: System, rest: Answers)
    requires Writes(t) && Holds(s, t.c) && AllOk(answers) && answers != []
    requires var d := Intended(cfg, t, answers[0].1); d.id == t.c.id && (Terminal(t.c) ==> d.life == t.c.life)
    ensures var d := Intended(cfg, t, answers[0].1);
      && r == Replaced(s, d) && Holds(r, d)
      && Play(cfg, s, t, answers) == Play(cfg, r, Resume(cfg, t, d, true), rest)
    ensures AllOk(rest) && |rest| == |answers| - 1
  {
    var d := Intended(cfg, t, answers[0].1);
    WriteStep(cfg, s, t, answers[0].1);
    OneStep(cfg, s, t, answers);
    r, rest := Replaced(s, d), answers[1..];
  }

  /** One answered call. */
  lemma {:induction false} CallGoes(cfg: Config, s: System, t: Task, answers: Answers) returns (r: System, rest: Answers)
    requires !Writes(t) && !t.DeleteRemove? && AllOk(answers) && answers != []
    ensures r == if InvalidatesHistory(t) then s.(invalidated := s.invalidated + {(t.c.id, t.c.version)}) else s
    ensures Play(cfg, s, t, answers) == Play(cfg, r, React(cfg, t, Ok), rest)
    ensures AllOk(rest) && |rest| == |answers| - 1
  {
    OneStep(cfg, s, t, answers);
    r, rest := Advance(cfg, s, t, Ok, answers[0].1).0, answers[1..];
  }

  // ---------------------------------------------------------------- activation and update

  lemma ValidateStores(cfg: Config, s: System, c: Credential, answers: Answers)
    requires Holds(s, c) && c.life != Revoked && c.life != Deleted && AllOk(answers) && |answers| >= 2
    ensures Play(cfg, s, Start(cfg, OpValidate, c), answers)
            == (Replaced(s, Credential(c.id, c.version + 1, Active, c.decom, answers[1].1)), Done)
    ensures Play(cfg, s, Start(cfg, OpRefresh, c), answers)
            == (Replaced(s, Credential(c.id, c.version + 1, Active, c.decom, answers[1].1)), Done)
  {
    OneStep(cfg, s, ValidateCall(c), answers);
    OneStep(cfg, s, ValidateSave(c), answers[1..]);
    OneStep(cfg, s, RefreshCall(c), answers);
    OneStep(cfg, s, RefreshSave(c), answers[1..]);
    WriteStep(cfg, s, ValidateSave(c), answers[1].1);
    WriteStep(cfg, s, RefreshSave(c), answers[1].1);
    DoneStays(cfg, Replaced(s, Credential(c.id, c.version + 1, Active, c.decom, answers[1].1)), answers[1..][1..]);
  }

  /** The refresh of expired credentials takes up active ones only. */
  lemma RefreshExpiredStores(cfg: Config, s: System, c: Credential, answers: Answers)
    requires Holds(s, c) && AllOk(answers) && |answers| >= 2
    ensures Play(cfg, s, Start(cfg, OpRefreshExpired, c), answers)
            == (if c.life == Active then Replaced(s, Credential(c.id, c.version + 1, Active, c.decom, answers[1].1)) else s, Done)
  {
    if c.life == Active { ValidateStores(cfg, s, c, answers); }
    DoneStays(cfg, s, answers);
  }

  lemma ImportStores(cfg: Config, s: System, c: Credential, answers: Answers)
    requires Holds(s, c) && c.life != Revoked && c.life != Deleted && AllOk(answers) && answers != []
    ensures Play(cfg, s, Start(cfg, OpImport, c), answers)
            == (Replaced(s, Credential(c.id, c.version + 1, Active, c.decom, answers[0].1)), Done)
  {
    OneStep(cfg, s, ImportSave(c), answers);
    WriteStep(cfg, s, ImportSave(c), answers[0].1);
    DoneStays(cfg, Replaced(s, Credential(c.id, c.version + 1, Active, c.decom, answers[0].1)), answers[1..]);
  }

  lemma UpdateStores(cfg: Config, s: System, c: Credential, answers: Answers)
    requires Holds(s, c) && AllOk(answers) && answers != []
    ensures Play(cfg, s, Start(cfg, OpUpdate, c), answers)
            == (Replaced(s, Credential(c.id, c.version + 1, c.life, c.decom, answers[0].1)), Done)
  {
    OneStep(cfg, s, UpdateSave(c), answers);
    WriteStep(cfg, s, UpdateSave(c), answers[0].1);
    DoneStays(cfg, Replaced(s, Credential(c.id, c.version + 1, c.life, c.decom, answers[0].1)), answers[1..]);
  }

  // ---------------------------------------------------------------- revoke

  /** What is stored by a first revocation that succeeds throughout: revoked, with provider and
      history cleanup complete, and the history invalidated under the version before. */
  predicate RevokedFully(cfg: Config, s: System, r: System, c: Credential, d: Credential) {
    && d.id == c.id && d.version == c.version + 3 && d.life == Revoked && d.content == c.content
    && d.decom.Some? && d.decom.value.intent == RevokeIntent
    && d.decom.value.provider == Complete && d.decom.value.history == Complete
    && d.decom.value.grant == (if c.decom.Some? then c.decom.value.grant else if cfg.hasGrants then Pending else NotRequired)
    && Holds(r, d) && r.store.tombstones == s.store.tombstones
    && r.store.live == s.store.live[c.id := d]
    && (c.id, c.version + 2) in r.invalidated
  }

  /** Containment, and the call of the provider if there is one. */
  lemma {:induction false} ContainStage(cfg: Config, s: System, c: Credential, after: After, answers: Answers)
    returns (r: System, d: Credential, rest: Answers)
    requires Holds(s, c) && c.life != Revoked && c.life != Deleted && AllOk(answers) && |answers| >= 2
    ensures AllOk(rest) && |rest| >= |answers| - 2
    ensures d.id == c.id && d.version == c.version + 1 && d.life == Revoked && d.content == c.content
    ensures d.decom.Some? && d.decom.value.intent == RevokeIntent
    ensures d.decom.value.grant == if c.decom.Some? then c.decom.value.grant else if cfg.hasGrants then Pending else NotRequired
    ensures Holds(r, d) && r.store == s.store.(live := s.store.live[c.id := d])
    ensures Play(cfg, s, RevokeContain(c, after), answers) == Play(cfg, r, RevokeRecord(d, Complete, false, after), rest)
  {
    r, rest := WriteGoes(cfg, s, RevokeContain(c, after), answers);
    d := r.store.live[c.id];
    if cfg.canRevoke {
      r, rest := CallGoes(cfg, r, RevokeCall(d, false, after), rest);
    }
  }

  lemma {:induction false} HistoryStage(cfg: Config, s: System, c: Credential, after: After, answers: Answers)
    returns (r: System, d: Credential, rest: Answers)
    requires Holds(s, c) && c.decom.Some? && AllOk(answers) && |answers| >= 3
    ensures AllOk(rest) && |rest| == |answers| - 3
    ensures d == c.(version := c.version + 1, decom := Some(c.decom.value.(history := Complete)))
    ensures Holds(r, d) && r.store == s.store.(live := s.store.live[c.id := d]) && (c.id, c.version) in r.invalidated
    ensures Play(cfg, s, RevokeHistory(c, false, after), answers) == Play(cfg, r, Finish(d, after), rest)
  {
    r, rest := CallGoes(cfg, s, RevokeHistory(c, false, after), answers);
    r, rest := WriteGoes(cfg, r, RevokeHistoryRecord(c, Complete, false, after), rest);
    d := r.store.live[c.id];
    r, rest := CallGoes(cfg, r, RevokeAudit(d, after), rest);
  }

  lemma {:induction false} RecordStage(cfg: Config, s: System, c: Credential, after: After, answers: Answers)
    returns (r: System, d: Credential, rest: Answers)
    requires Holds(s, c) && c.decom.Some? && AllOk(answers) && |answers| >= 1
    ensures AllOk(rest) && |rest| == |answers| - 1
    ensures d == c.(version := c.version + 1, decom := Some(c.decom.value.(provider := Complete)))
    ensures Holds(r, d) && r.store == s.store.(live := s.store.live[c.id := d])
    ensures Play(cfg, s, RevokeRecord(c, Complete, false, after), answers) == Play(cfg, r, RevokeHistory(d, false, after), rest)
  {
    r, rest := WriteGoes(cfg, s, RevokeRecord(c, Complete, false, after), answers);
    d := r.store.live[c.id];
  }

  lemma {:induction false} RevokeStages(cfg: Config, s: System, c: Credential, after: After, answers: Answers)
    returns (r: System, d: Credential, rest: Answers)
    requires Holds(s, c) && c.life != Revoked && c.life != Deleted && AllOk(answers) && |answers| >= 6
    ensures AllOk(rest) && |rest| >= |answers| - 6 && RevokedFully(cfg, s, r, c, d)
    ensures Play(cfg, s, RevokeContain(c, after), answers) == Play(cfg, r, Finish(d, after), rest)
  {
    var s1, c1, rest1 := ContainStage(cfg, s, c, after, answers);
    var s2, c2, rest2 := RecordStage(cfg, s1, c1, after, rest1);
    r, d, rest := HistoryStage(cfg, s2, c2, after, rest2);
    assert r.store.live == s.store.live[c.id := d];
  }

  /** A first revocation that succeeds throughout stores a fully revoked record. */
  lemma RevokeStores(cfg: Config, s: System, c: Credential, answers: Answers)
    requires Holds(s, c) && c.life != Revoked && c.life != Deleted && AllOk(answers) && |answers| >= 6
    ensures var (r, t) := Play(cfg, s, Start(cfg, OpRevoke, c), answers);
      t == Done && c.id in r.store.live && RevokedFully(cfg, s, r, c, r.store.live[c.id])
  {
    var r, d, rest := RevokeStages(cfg, s, c, Return, answers);
    DoneStays(cfg, r, rest);
  }

  lemma {:induction false} AskAgain(cfg: Config, s: System, c: Credential, answers: Answers)
    returns (r: System, d: Credential, rest: Answers)
    requires Holds(s, c) && c.decom.Some? && AllOk(answers) && |answers| >= 2
    ensures AllOk(rest) && |rest| == |answers| - 2
    ensures d == c.(version := c.version + 1, decom := Some(c.decom.value.(provider := Complete)))
    ensures Holds(r, d) && r.store == s.store.(live := s.store.live[c.id := d])
    ensures Play(cfg, s, RevokeCall(c, true, Return), answers) == Play(cfg, r, RevokeHistory(d, true, Return), rest)
  {
    r, rest := CallGoes(cfg, s, RevokeCall(c, true, Return), answers);
    r, rest := WriteGoes(cfg, r, RevokeRecord(c, Complete, true, Return), rest);
    d := r.store.live[c.id];
  }

  lemma {:induction false} InvalidateAgain(cfg: Config, s: System, c: Credential, answers: Answers) returns (r: System, rest: Answers)
    requires AllOk(answers) && |answers| >= 2
    ensures r == s.(invalidated := s.invalidated + {(c.id, c.version)})
    ensures Play(cfg, s, RevokeHistory(c, true, Return), answers) == Play(cfg, r, Done, rest)
  {
    r, rest := CallGoes(cfg, s, RevokeHistory(c, true, Return), answers);
    r, rest := CallGoes(cfg, r, RevokeAudit(c, Return), rest);
  }

  /** A repeated revocation that succeeds throughout asks the provider again unless its cleanup is
      over, invalidates the history again, and leaves the record revoked. */
  lemma {:induction false} RetryStages(cfg: Config, s: System, c: Credential, answers: Answers) returns (r: System, rest: Answers)
    requires Holds(s, c) && c.decom.Some? && AllOk(answers) && |answers| >= 4
    ensures Play(cfg, s, RevokeRetry(cfg, c, Return), answers) == Play(cfg, r, Done, rest)
    ensures c.id in r.store.live && SettledOver(cfg, s, r, c, r.store.live[c.id])
  {
    if cfg.canRevoke && c.decom.value.provider != Complete && c.decom.value.provider != NotRequired {
      var t, d, rest1 := AskAgain(cfg, s, c, answers);
      r, rest := InvalidateAgain(cfg, t, d, rest1);
    } else {
      r, rest := InvalidateAgain(cfg, s, c, answers);
      assert s.store.live[c.id := c] == s.store.live;
    }
  }

  predicate SettledOver(cfg: Config, s: System, r: System, c: Credential, d: Credential)
    requires c.decom.Some?
  {
    var asked := cfg.canRevoke && c.decom.value.provider != Complete && c.decom.value.provider != NotRequired;
    && d == (if asked then c.(version := c.version + 1, decom := Some(c.decom.value.(provider := Complete))) else c)
    && r.store == s.store.(live := s.store.live[c.id := d]) && (c.id, d.version) in r.invalidated
  }

  lemma RevokeAgainStores(cfg: Config, s: System, c: Credential, answers: Answers)
    requires Holds(s, c) && c.life == Revoked && c.decom.Some? && AllOk(answers) && |answers| >= 4
    ensures var (r, t) := Play(cfg, s, Start(cfg, OpRevoke, c), answers);
      t == Done && c.id in r.store.live && SettledOver(cfg, s, r, c, r.store.live[c.id])
  {
    var r, rest := RetryStages(cfg, s, c, answers);
    DoneStays(cfg, r, rest);
  }

  /** A revoked record without a decommissioning part is given one first. */
  lemma RevokeAgainStarts(cfg: Config, s: System, c: Credential, answers: Answers)
    requires Holds(s, c) && c.life == Revoked && c.decom.None? && AllOk(answers) && |answers| >= 5
    ensures var (r, t) := Play(cfg, s, Start(cfg, OpRevoke, c), answers);
      && t == Done && c.id in r.store.live && r.store.live[c.id].life == Revoked
      && r.store.live[c.id].decom.Some?
      && r.store.live[c.id].decom.value.provider == if cfg.canRevoke then Complete else NotRequired
  {
    var t, rest1 := WriteGoes(cfg, s, RevokeAgain(c), answers);
    var d := t.store.live[c.id];
    var r, rest := RetryStages(cfg, t, d, rest1);
    DoneStays(cfg, r, rest);
  }

  // ---------------------------------------------------------------- delete

  lemma {:induction false} GrantStage(cfg: Config, s: System, c: Credential, answers: Answers)
    returns (r: System, d: Credential, rest: Answers)
    requires Holds(s, c) && c.decom.Some? && AllOk(answers) && |answers| >= 2
    ensures AllOk(rest) && |rest| == |answers| - 2
    ensures d == c.(version := c.version + 1, decom := Some(c.decom.value.(grant := Complete)))
    ensures Holds(r, d) && r.store == s.store.(live := s.store.live[c.id := d])
    ensures Play(cfg, s, DeleteGrants(c), answers) == Play(cfg, r, DeleteHistory(d), rest)
  {
    r, rest := CallGoes(cfg, s, DeleteGrants(c), answers);
    r, rest := WriteGoes(cfg, r, DeleteGrantsRecord(c, Complete), rest);
    d := r.store.live[c.id];
  }

  /** The last stages: grants, history, removal. */
  lemma {:induction false} RemoveStages(cfg: Config, s: System, c: Credential, answers: Answers) returns (r: System, rest: Answers)
    requires Holds(s, c) && c.decom.Some? && AllOk(answers) && |answers| >= 4
    ensures r.store == Store(s.store.live - {c.id}, s.store.tombstones + {c.id})
    ensures (c.id, c.version + 1) in r.invalidated
    ensures Play(cfg, s, DeleteGrants(c), answers) == Play(cfg, r, Done, rest)
  {
    var t, d, rest1 := GrantStage(cfg, s, c, answers);
    r, rest := InvalidateAndRemove(cfg, t, d, rest1);
    assert t.store.live - {c.id} == s.store.live - {c.id};
  }

  lemma {:induction false} InvalidateAndRemove(cfg: Config, s: System, c: Credential, answers: Answers) returns (r: System, rest: Answers)
    requires Holds(s, c) && AllOk(answers) && |answers| >= 2
    ensures r.store == Store(s.store.live - {c.id}, s.store.tombstones + {c.id}) && (c.id, c.version) in r.invalidated
    ensures Play(cfg, s, DeleteHistory(c), answers) == Play(cfg, r, Done, rest)
  {
    r, rest := CallGoes(cfg, s, DeleteHistory(c), answers);
    r, rest := RemovalGoes(cfg, r, c, rest);
  }

  lemma {:induction false} RemovalGoes(cfg: Config, s: System, c: Credential, answers: Answers) returns (r: System, rest: Answers)
    requires Holds(s, c) && AllOk(answers) && answers != []
    ensures r == s.(store := Store(s.store.live - {c.id}, s.store.tombstones + {c.id}))
    ensures Play(cfg, s, DeleteRemove(c), answers) == Play(cfg, r, Done, rest)
  {
    OneStep(cfg, s, DeleteRemove(c), answers);
    r, rest := Advance(cfg, s, DeleteRemove(c), Ok, answers[0].1).0, answers[1..];
  }

  /** The first stages of the deletion proper: what is left of provider cleanup. */
  lemma {:induction false} CleanupStages(cfg: Config, s: System, c: Credential, answers: Answers) returns (r: System, d: Credential, rest: Answers)
    requires Holds(s, c) && c.life != Deleted && AllOk(answers) && |answers| >= 3
    ensures AllOk(rest) && |rest| >= |answers| - 3
    ensures d.id == c.id && d.decom.Some? && Holds(r, d) && r.store == s.store.(live := s.store.live[c.id := d])
    ensures Play(cfg, s, DeleteBegin(c), answers) == Play(cfg, r, DeleteGrants(d), rest)
  {
    var t, rest1 := WriteGoes(cfg, s, DeleteBegin(c), answers);
    var e := t.store.live[c.id];
    if !Settled(e) && cfg.canRevoke {
      r, d, rest := ProviderStages(cfg, t, e, rest1);
    } else {
      r, d, rest := t, e, rest1;
    }
  }

  lemma {:induction false} ProviderStages(cfg: Config, s: System, c: Credential, answers: Answers) returns (r: System, d: Credential, rest: Answers)
    requires Holds(s, c) && c.decom.Some? && AllOk(answers) && |answers| >= 2
    ensures AllOk(rest) && |rest| == |answers| - 2
    ensures d == c.(version := c.version + 1, decom := Some(c.decom.value.(provider := Complete)))
    ensures Holds(r, d) && r.store == s.store.(live := s.store.live[c.id := d])
    ensures Play(cfg, s, DeleteCall(c), answers) == Play(cfg, r, DeleteGrants(d), rest)
  {
    r, rest := CallGoes(cfg, s, DeleteCall(c), answers);
    r, rest := WriteGoes(cfg, r, DeleteRecord(c, Complete), rest);
    d := r.store.live[c.id];
  }

  lemma {:induction false} DeleteStages(cfg: Config, s: System, c: Credential, answers: Answers) returns (r: System, rest: Answers)
    requires Holds(s, c) && c.life != Deleted && AllOk(answers) && |answers| >= 7
    ensures Gone(s, r, c) && Play(cfg, s, DeleteBegin(c), answers) == (r, Done)
  {
    var t, d;
    t, d, rest := CleanupStages(cfg, s, c, answers);
    r, rest := RemoveStages(cfg, t, d, rest);
    assert r.store.live == s.store.live - {c.id};
    DoneStays(cfg, r, rest);
  }

  /** The record is removed for good, after its history was invalidated, and no other is touched. */
  ghost predicate Gone(s: System, r: System, c: Credential) {
    && r.store == Store(s.store.live - {c.id}, s.store.tombstones + {c.id})
    && exists version :: (c.id, version) in r.invalidated
  }

  /** A `delete` of a stored record that is answered with success throughout removes it. */
  lemma DeleteRemoves(cfg: Config, s: System, c: Credential, answers: Answers)
    requires Holds(s, c) && c.life != Deleted && AllOk(answers) && |answers| >= 13
    ensures var (r, t) := Play(cfg, s, Start(cfg, OpDelete, c), answers); t == Done && Gone(s, r, c)
  {
    if cfg.canRevoke && c.life != Revoked {
      var t, d, rest := RevokeStages(cfg, s, c, ThenDelete, answers);
      var r, end := DeleteStages(cfg, t, d, rest);
      assert r.store.live == s.store.live - {c.id};
    } else {
      var r, end := DeleteStages(cfg, s, c, answers);
    }
  }

  /** What the provider answers is what is recorded: done, not needed, or to be retried. */
  lemma ProviderAnswerIsRecorded(cfg: Config, s: System, t: Task, reply: Reply, content: int)
    requires (t.RevokeCall? || t.DeleteCall?) && Holds(s, t.c) && t.c.decom.Some?
    ensures var (s1, t1) := Advance(cfg, s, t, reply, content);
      var (s2, t2) := Advance(cfg, s1, t1, Ok, content);
      && t.c.id in s2.store.live
      && var d := s2.store.live[t.c.id];
         d == t.c.(version := t.c.version + 1, decom := Some(t.c.decom.value.(provider :=
           match reply case Ok => Complete case Incompatible => NotRequired case Fail => FailedRetryable case Lost => FailedRetryable)))
  {
    var (s1, t1) := Advance(cfg, s, t, reply, content);
    assert s1 == s && t1.c == t.c && Writes(t1);
    WriteStep(cfg, s, t1, content);
  }

  // ---------------------------------------------------------------- what failures leave behind

  /** The first write of a revocation or deletion keeps cleanup steps that are on the record, and
      otherwise opens one for each service that is configured. */
  lemma CleanupOpens(cfg: Config, s: System, c: Credential, content: int)
    requires Holds(s, c) && c.life != Deleted
    ensures c.life != Revoked ==>
      Advance(cfg, s, Start(cfg, OpRevoke, c), Ok, content).0 == Replaced(s, Opened(cfg, c, RevokeIntent, Revoked))
    ensures c.life == Revoked && c.decom.None? ==>
      Advance(cfg, s, Start(cfg, OpRevoke, c), Ok, content).0 == Replaced(s, Opened(cfg, c, RevokeIntent, Revoked))
    ensures !cfg.canRevoke || c.life == Revoked ==>
      Advance(cfg, s, Start(cfg, OpDelete, c), Ok, content).0 == Replaced(s, Opened(cfg, c, DeleteIntent, c.life))
  {}

  function Opened(cfg: Config, c: Credential, intent: Intent, life: Life): Credential {
    Credential(c.id, c.version + 1, life, Some(
      if c.decom.Some? then Decommissioning(intent, c.decom.value.provider, c.decom.value.grant, c.decom.value.history)
      else Decommissioning(intent, if cfg.canRevoke then Pending else NotRequired,
                           if cfg.hasGrants then Pending else NotRequired, if cfg.hasHistory then Pending else NotRequired)),
      c.content)
  }

  /** Some answers in a row, of which the contents do not matter here. */
  function Replies(replies: seq<Reply>): (r: Answers)
    ensures |r| == |replies| && forall i :: 0 <= i < |r| ==> r[i] == (replies[i], 0)
  {
    seq(|replies|, i requires 0 <= i < |replies| => (replies[i], 0))
  }

  lemma TwoSteps(cfg: Config, s: System, t: Task, a: Reply, b: Reply)
    ensures var (s1, t1) := Advance(cfg, s, t, a, 0);
      Play(cfg, s, t, Replies([a, b])) == Advance(cfg, s1, t1, b, 0)
  {
    var answers := Replies([a, b]);
    var (s1, t1) := Advance(cfg, s, t, a, 0);
    var rest := answers[1..];
    assert Play(cfg, s, t, answers) == Play(cfg, s1, t1, rest);
    assert rest[0] == (b, 0) && rest[1..] == [];
    var (s2, t2) := Advance(cfg, s1, t1, b, 0);
    assert Play(cfg, s1, t1, rest) == Play(cfg, s2, t2, rest[1..]);
  }

  lemma ThreeSteps(cfg: Config, s: System, t: Task, a: Reply, b: Reply, c: Reply)
    ensures var (s1, t1) := Advance(cfg, s, t, a, 0); var (s2, t2) := Advance(cfg, s1, t1, b, 0);
      Play(cfg, s, t, Replies([a, b, c])) == Advance(cfg, s2, t2, c, 0)
  {
    var answers := Replies([a, b, c]);
    var (s1, t1) := Advance(cfg, s, t, a, 0);
    assert answers[1..] == Replies([b, c]);
    assert Play(cfg, s, t, answers) == Play(cfg, s1, t1, Replies([b, c]));
    TwoSteps(cfg, s1, t1, b, c);
  }

  /** A cleanup that fails is recorded as one to be retried. */
  lemma GrantFailureIsRecorded(cfg: Config, s: System, c: Credential, bad: Reply)
    requires Holds(s, c) && c.decom.Some? && bad != Ok
    ensures Play(cfg, s, DeleteGrants(c), Replies([bad, Ok]))
            == (Replaced(s, c.(version := c.version + 1, decom := Some(c.decom.value.(grant := FailedRetryable)))), Done)
  {
    TwoSteps(cfg, s, DeleteGrants(c), bad, Ok);
    WriteStep(cfg, s, DeleteGrantsRecord(c, FailedRetryable), 0);
  }

  lemma HistoryFailureIsRecorded(cfg: Config, s: System, c: Credential, retry: bool, after: After, bad: Reply)
    requires Holds(s, c) && c.decom.Some? && bad != Ok
    ensures Play(cfg, s, RevokeHistory(c, retry, after), Replies([bad, Ok])).0
            == Replaced(s, c.(version := c.version + 1, decom := Some(c.decom.value.(history := FailedRetryable))))
  {
    TwoSteps(cfg, s, RevokeHistory(c, retry, after), bad, Ok);
    WriteStep(cfg, s, RevokeHistoryRecord(c, FailedRetryable, retry, after), 0);
  }

  /** So is one that succeeds when the success itself cannot be recorded. */
  lemma LostGrantRecord(cfg: Config, s: System, c: Credential)
    requires Holds(s, c) && c.decom.Some?
    ensures Play(cfg, s, DeleteGrants(c), Replies([Ok, Fail, Ok])).0
            == Replaced(s, c.(version := c.version + 1, decom := Some(c.decom.value.(grant := FailedRetryable))))
  {
    ThreeSteps(cfg, s, DeleteGrants(c), Ok, Fail, Ok);
    assert Advance(cfg, s, DeleteGrants(c), Ok, 0) == (s, DeleteGrantsRecord(c, Complete));
    assert Advance(cfg, s, DeleteGrantsRecord(c, Complete), Fail, 0) == (s, DeleteGrantsRecord(c, FailedRetryable));
    WriteStep(cfg, s, DeleteGrantsRecord(c, FailedRetryable), 0);
  }

  lemma LostHistoryRecord(cfg: Config, s: System, c: Credential, after: After)
    requires Holds(s, c) && c.decom.Some?
    ensures Play(cfg, s, RevokeHistory(c, false, after), Replies([Ok, Fail, Ok])).0.store
            == Replaced(s, c.(version := c.version + 1, decom := Some(c.decom.value.(history := FailedRetryable)))).store
  {
    ThreeSteps(cfg, s, RevokeHistory(c, false, after), Ok, Fail, Ok);
    var t := s.(invalidated := s.invalidated + {(c.id, c.version)});
    WriteStep(cfg, t, RevokeHistoryRecord(c, FailedRetryable, false, after), 0);
  }

  /** A failing provider keeps nobody from invalidating the history, and neither does failing to
      record that the provider failed. */
  lemma HistoryFollowsProviderFailure(cfg: Config, s: System, c: Credential, retry: bool, after: After, bad: Reply, recorded: Reply)
    requires Holds(s, c) && c.decom.Some? && bad in {Fail, Lost} && recorded != Incompatible
    ensures var r := Play(cfg, s, RevokeCall(c, retry, after), Replies([bad, recorded, Ok])).0;
      (c.id, if recorded == Ok then c.version + 1 else c.version) in r.invalidated
  {
    ThreeSteps(cfg, s, RevokeCall(c, retry, after), bad, recorded, Ok);
    var t := RevokeRecord(c, FailedRetryable, retry, after);
    var (s1, t1) := Advance(cfg, s, RevokeCall(c, retry, after), bad, 0);
    assert s1 == s && t1 == t;
    if recorded == Ok {
      WriteStep(cfg, s, t, 0);
    } else {
      assert Advance(cfg, s, t, recorded, 0).1 == RevokeHistory(c, retry, after);
    }
  }

  /** Other writes that fail end the operation: an unconfirmed containment or begin of a deletion,
      and a provider success that cannot be recorded. */
  lemma BeginFailureEnds(cfg: Config, s: System, c: Credential, after: After, bad: Reply)
    requires bad in {Fail, Lost}
    ensures Advance(cfg, s, RevokeContain(c, after), bad, 0).1 == Done
    ensures Advance(cfg, s, DeleteBegin(c), bad, 0).1 == Done
  {}

  lemma RecordFailureEnds(cfg: Config, s: System, c: Credential, after: After, bad: Reply, answer: Reply)
    requires c.decom.Some? && bad in {Fail, Lost} && answer in {Ok, Incompatible}
    ensures Play(cfg, s, RevokeCall(c, false, after), Replies([answer, bad])).1 == Done
  {
    TwoSteps(cfg, s, RevokeCall(c, false, after), answer, bad);
  }

  /** A deletion goes on after its provider call only when that reports success and this is recorded:
      a provider that needs no revocation ends it for this time. */
  lemma ProviderEndsDeletion(cfg: Config, s: System, c: Credential, answer: Reply, recorded: Reply)
    requires c.decom.Some? && (answer != Ok || recorded in {Fail, Lost})
    ensures Play(cfg, s, DeleteCall(c), Replies([answer, recorded])).1 == Done
  {
    TwoSteps(cfg, s, DeleteCall(c), answer, recorded);
  }

  /** Calls that fail and end the operation without any effect: the audit of a revocation, the last
      invalidation of a deletion, and the provider of a validation or refresh. */
  lemma CallFailureEnds(cfg: Config, s: System, c: Credential, after: After, bad: Reply)
    requires bad != Ok
    ensures Advance(cfg, s, RevokeAudit(c, after), bad, 0) == (s, Done)
    ensures Advance(cfg, s, DeleteHistory(c), bad, 0) == (s, Done)
    ensures Advance(cfg, s, ValidateCall(c), bad, 0) == (s, Done) && Advance(cfg, s, RefreshCall(c), bad, 0) == (s, Done)
  {}

  // ---------------------------------------------------------------- the store

  /** The guard keeps a terminal state against any writer, also one that knows the version. */
  lemma GuardKeepsTerminal(s: Store, c: Credential, expected: nat)
    requires c.id in s.live && s.live[c.id].life in {Revoked, Deleted} && c.life != s.live[c.id].life
    ensures SaveConditional(s, c, expected, true).Refused?
  {}
}
