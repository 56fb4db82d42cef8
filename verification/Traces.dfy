/** What the server makes of the statements that reach it, whatever becomes of the replies. */
module Traces {
  import opened Wrappers
  import opened Sql

  /** The server's side of a session. */
  datatype Server = Server(db: Database, txn: Option<Database>, locked: bool)

  function Shown(s: Session): Server {
    Server(s.db, s.txn, s.locked)
  }

  /** The statement took effect, answered or not. */
  predicate Reached(e: Event) {
    e.fate.Answered? || (e.fate.Failed? && e.fate.effective)
  }

  function Absorb(v: Server, e: Event, env: Environment): Server {
    if Reached(e) then Shown(Effect(Session(v.db, v.txn, v.locked, false, [], env, []), e.stmt)) else v
  }

  function Absorbed(v: Server, log: seq<Event>, env: Environment): Server {
    if log == [] then v else Absorb(Absorbed(v, log[..|log| - 1], env), log[|log| - 1], env)
  }

  lemma {:induction false} AbsorbedInParts(v: Server, a: seq<Event>, b: seq<Event>, env: Environment)
    ensures Absorbed(v, a + b, env) == Absorbed(Absorbed(v, a, env), b, env)
    decreases |b|
  {
    hide Absorb;
    if b == [] {
      assert a + b == a;
    } else {
      var n := |b| - 1;
      assert (a + b)[..|a + b| - 1] == a + b[..n];
      AbsorbedInParts(v, a, b[..n], env);
    }
  }

  /** From s to t the server saw exactly the events that the log has gained. */
  predicate Traced(s: Session, t: Session) {
    s.log <= t.log && t.env == s.env && Shown(t) == Absorbed(Shown(s), t.log[|s.log|..], s.env)
  }

  lemma TracedStill(s: Session, t: Session)
    requires t.log == s.log && t.env == s.env && Shown(t) == Shown(s)
    ensures Traced(s, t)
  {
    assert t.log[|s.log|..] == [];
  }

  lemma TracedSend(s: Session, stmt: Statement)
    ensures Traced(s, Send(s, stmt).0)
  {
    var e := Event(stmt, NextFate(s));
    var t := Send(s, stmt).0;
    assert t.log[|s.log|..] == [e];
    assert [e][..0] == [];
    assert Absorbed(Shown(s), [e], s.env) == Absorb(Absorbed(Shown(s), [], s.env), e, s.env);
    SentIsAbsorbed(s, stmt);
  }

  lemma SentIsAbsorbed(s: Session, stmt: Statement)
    ensures Shown(Send(s, stmt).0) == Absorb(Shown(s), Event(stmt, NextFate(s)), s.env)
    ensures Send(s, stmt).0.env == s.env
  {
    hide Effect;
    var v := Session(s.db, s.txn, s.locked, false, [], s.env, []);
    SameServer(s.(log := s.log + [Event(stmt, NextFate(s))],
                  fates := if s.poisoned || s.fates == [] then s.fates else s.fates[1..]), v, stmt);
  }

  /** The client's side of the session has no part in the effect. */
  lemma SameServer(s: Session, t: Session, stmt: Statement)
    requires Shown(s) == Shown(t) && s.env == t.env
    ensures Shown(Effect(s, stmt)) == Shown(Effect(t, stmt)) && Effect(s, stmt).env == s.env
  {
    hide Perform;
  }

  lemma TracedTransitive(s: Session, t: Session, u: Session)
    requires Traced(s, t) && Traced(t, u)
    ensures Traced(s, u)
  {
    assert u.log[|s.log|..] == t.log[|s.log|..] + u.log[|t.log|..];
    AbsorbedInParts(Shown(s), t.log[|s.log|..], u.log[|t.log|..], s.env);
  }

  // ---- What a log says ----

  /** The n-th statement from the end is `stmt`, and it was answered or not. */
  predicate Said(log: seq<Event>, n: nat, stmt: Statement, answered: bool) {
    1 <= n <= |log| && log[|log| - n].stmt == stmt && (log[|log| - n].fate.Answered? <==> answered)
  }

  lemma SentSaid(s: Session, stmt: Statement)
    ensures Said(Send(s, stmt).0.log, 1, stmt, Send(s, stmt).1)
    ensures forall n: nat, prior, answered :: Said(s.log, n, prior, answered) ==>
      Said(Send(s, stmt).0.log, n + 1, prior, answered)
  {
    hide Perform;
  }
}
