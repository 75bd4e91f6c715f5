/**
 * The use cases in their own order, running over the tables. Before each call to a port anything else may
 * run (`Interfere`); the call itself is one action. So every execution extends a run and inherits what is
 * proved about runs.
 */
module TrackingService {
  import opened Options
  import opened Trackings
  import opened TrackingRuns
  import opened TrackingSafety
  import opened TrackingOutcomes

  datatype ErasureOutcome = Erased(count: nat) | EmptyIdentity | WriteFailed

  class Service {
    const cfg: Collation
    ghost const first: Db
    var st: State
    ghost var actions: seq<Action>
    /** The users whose cache footprint was cleared. */
    var evictions: seq<(string, string)>

    ghost predicate Valid()
      reads this
    {
      DbOk(cfg, first) && After(cfg, first, actions) == Some(st)
    }

    constructor (cfg: Collation, db: Db)
      requires DbOk(cfg, db)
      ensures Valid() && this.cfg == cfg && first == db && st == Start(db) && evictions == []
    {
      this.cfg := cfg;
      first := db;
      st := Start(db);
      actions, evictions := [], [];
    }

    lemma Reached()
      requires Valid()
      ensures Inv(cfg, first, st)
    {
      RunKeepsInv(cfg, first, actions);
    }

    method Await(a: Action)
      requires Valid() && Enabled(cfg, st, a)
      modifies this`st, this`actions
      ensures Valid() && st == Apply(cfg, old(st), a) && actions == old(actions) + [a]
    {
      hide Enabled, Apply, DbOk;
      st := Apply(cfg, st, a);
      actions := actions + [a];
      assert actions[..|actions| - 1] == old(actions);
    }

    /** While call `c` waits, other calls, teardowns and transitions may run. */
    method Interfere(c: nat)
      requires Valid() && InPhase(st, c)
      modifies this`st, this`actions
      ensures Valid() && old(actions) <= actions
      ensures InPhase(st, c) && st.calls[c] == old(st.calls[c])
    {
      hide Enabled, Apply, DbOk, After;
      var steps: int :| 0 <= steps;
      for i := 0 to steps
        invariant Valid() && old(actions) <= actions
        invariant InPhase(st, c) && st.calls[c] == old(st.calls[c])
      {
        var a: Action := *;
        if Enabled(cfg, st, a) {
          var next := Apply(cfg, st, a);
          if InPhase(next, c) && next.calls[c] == st.calls[c] {
            Await(a);
          }
        }
      }
    }

    /** Resolve the caller, guard uniqueness, persist: three calls to ports, in this order, with early returns. */
    method Execute(input: Input) returns (outcome: Outcome, c: nat)
      requires Valid()
      modifies this`st, this`actions
      ensures Valid() && old(actions) <= actions
      ensures c < |st.calls| && st.calls[c] == Call(input, Done(outcome))
      // Some step of this execution ended the call, in the way its outcome says.
      ensures exists n :: 0 <= n < |actions| && EndsAt(cfg, first, actions, n, c, outcome)
      ensures outcome == UnknownUser <==> Resolve(c, NotFound) in actions
      // Success: the row and its opening history stand, with the caller's order and tags and the user found.
      ensures outcome.Created? ==>
                var i := outcome.row;
                && i < |st.db.rows| && st.db.rows[i].orderId == input.orderId && st.db.rows[i].tags == TagsOf(input)
                && HasOpening(st.db.trail, st.db.rows[i]) && Resolve(c, Found(st.db.rows[i].userId)) in actions
      // Already exists: the order has a tracking, live or deleted, or a minted id or number was taken.
      ensures outcome == AlreadyExists ==>
                if c in st.clashed then c in st.minted && IsTaken(cfg, st.db.rows, st.minted[c])
                else HasOrder(cfg, st.db.rows, input.orderId)
      // Unknown user: this call wrote nothing.
      ensures outcome == UnknownUser ==> forall i :: 0 <= i < |st.creators| ==> st.creators[i] != Some(c)
    {
      hide DbOk, After, Exists, IsDuplicate, HasOrder, HasOpening, HasId, HasNumber, IsTaken, TagsOf, CanAdvance,
        SoftDeleted, Advanced, EndsAt, Inserted, NewRow, Deleted;
      c := |st.calls|;
      Await(Begin(input));
      Interfere(c);
      var answer: Answer := *;
      Await(Resolve(c, answer));
      if answer.Found? {
        Interfere(c);
        var ok: bool := *;
        Await(Check(c, ok));
        if st.calls[c].phase.Writing? {
          Interfere(c);
          var id: string, number: string, at: int, fate: Fate := *, *, *, *;
          Await(Write(c, id, number, at, fate));
        }
      }
      outcome := st.calls[c].phase.outcome;
      FinishedCalls(cfg, first, actions, c);
      CallIsExplained(cfg, first, actions, c, outcome);
    }

    /**
     * The E2E teardown of one run, or of all when the tag is empty. None is an error: the transaction was rolled
     * back, or it landed and the answer to its commit was lost.
     */
    method ExecuteScoped(runTag: string, now: int) returns (deleted: Option<nat>)
      requires Valid()
      modifies this`st, this`actions
      ensures Valid() && st.calls == old(st.calls)
      ensures var swept := SoftDeleted(cfg, SweepSelector(runTag), Stamp(now, CLEANUP), old(st.db));
              if deleted.None? then st.db == old(st.db) || st.db == swept else st.db == swept
      ensures deleted.Some? ==> deleted.value == CountSelected(cfg, SweepSelector(runTag), old(st.db.rows))
      ensures st.db != old(st.db) || deleted.Some? ==> CountSelected(cfg, SweepSelector(runTag), st.db.rows) == 0
    {
      hide DbOk, After;
      var fate: Fate := *;
      if fate == Failed {
        return None;
      }
      var count := CountSelected(cfg, SweepSelector(runTag), st.db.rows);
      SweepTwice(cfg, SweepSelector(runTag), Stamp(now, CLEANUP), st.db);
      Await(Sweep(runTag, now));
      deleted := if fate == Answered then Some(count) else None;
    }

    /**
     * The account-deletion cascade: an eviction follows an answered write, and nothing it does fails the call.
     * A write that failed may have landed all the same.
     */
    method DeleteByUser(cognitoSub: string, userId: string, now: int) returns (outcome: ErasureOutcome)
      requires Valid()
      modifies this
      ensures Valid() && st.calls == old(st.calls)
      ensures cognitoSub == "" || userId == "" <==> outcome == EmptyIdentity
      ensures outcome == EmptyIdentity ==> st == old(st)
      ensures !outcome.Erased? ==> evictions == old(evictions)
      ensures var erased := SoftDeleted(cfg, ByUser(cognitoSub, userId), Stamp(now, ERASURE), old(st.db));
              if outcome.Erased? then st.db == erased else st.db == old(st.db) || st.db == erased
      ensures outcome.Erased? ==>
                var sel := ByUser(cognitoSub, userId);
                && outcome.count == CountSelected(cfg, sel, old(st.db.rows)) && CountSelected(cfg, sel, st.db.rows) == 0
                && (evictions == old(evictions) || evictions == old(evictions) + [(cognitoSub, userId)])
    {
      hide DbOk, After;
      if cognitoSub == "" || userId == "" {
        return EmptyIdentity;
      }
      var fate: Fate := *;
      if fate == Failed {
        return WriteFailed;
      }
      var count := CountSelected(cfg, ByUser(cognitoSub, userId), st.db.rows);
      SweepTwice(cfg, ByUser(cognitoSub, userId), Stamp(now, ERASURE), st.db);
      Await(Erase(cognitoSub, userId, now));
      if fate == Unheard {
        return WriteFailed;
      }
      InvalidateQuietly(cognitoSub, userId);
      return Erased(count);
    }

    /** A panic of the cache is recovered: the eviction is lost, the deletion stands. */
    method InvalidateQuietly(cognitoSub: string, userId: string)
      requires Valid() && CountSelected(cfg, ByUser(cognitoSub, userId), st.db.rows) == 0
      modifies this`evictions
      ensures Valid() && (evictions == old(evictions) || evictions == old(evictions) + [(cognitoSub, userId)])
    {
      hide DbOk, After;
      var panics: bool := *;
      if !panics {
        evictions := evictions + [(cognitoSub, userId)];
      }
    }
  }
}
