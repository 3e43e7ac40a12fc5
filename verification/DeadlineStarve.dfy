/** With writes_starved 0 an expired read can wait for ever. */
module DeadlineStarve {
  import opened Lists
  import opened DeadlineModel
  import opened DeadlineSafety
  import opened DeadlineRuns

  /** The read that waits, once it is queued, and the write that comes again and again. */
  function Read(c: Config): Req {
    Req(0, 8, false, c.readExpire)
  }

  function Write(): Req {
    Req(0, 8, true, 0)
  }

  /** The read alone is queued; a batch of one write may have been served. */
  function Waiting(c: Config, served: bool): Dd {
    Dd(map[0 := Read(c)], Lane([0], [0], None), EMPTY_LANE, if served then 1 else 0, if served then 8 else 0, 0)
  }

  /** A write has come. */
  function Joined(c: Config, served: bool): Dd {
    Waiting(c, served).(reqs := map[0 := Read(c), 1 := Write().(expires := c.readExpire + c.writeExpire)],
                        write := Lane([1], [1], None))
  }

  /** The write is put beside the read. */
  lemma WriteComes(c: Config, served: bool)
    ensures Known(Waiting(c, served).reqs, [])
    ensures Added(c, Waiting(c, served), 1, Write(), c.readExpire) == Joined(c, served)
  {
    var dd := Waiting(c, served);
    assert dd.reqs[1 := Write().(expires := c.readExpire + c.writeExpire)] == Joined(c, served).reqs;
    assert [] + [1] == [1];
  }

  /** And served before it, although the read has expired. */
  lemma WriteGoes(c: Config, served: bool)
    requires c.Valid() && c.Patience() == 0
    ensures Choice(c, Joined(c, served), c.readExpire) == Some(1)
    ensures Dispatched(c, Joined(c, served), c.readExpire) == Waiting(c, true)
  {
    var dd := Joined(c, served);
    assert Latter([1], 1) == None;
    assert Without([1], 1) == [];
    assert dd.reqs - {1} == Waiting(c, true).reqs;
  }

  ghost predicate Starves(c: Config, states: seq<Sys>, actions: seq<Action>, n: nat) {
    && Run(c, states, actions) && |actions| >= 2 && Dispatches(actions) == n && Dispatches(actions[..2]) == 0
    && (forall j :: 2 <= j < |states| ==>
          0 in states[j].dd.reqs && !states[j].dd.reqs[0].write && states[j].dd.reqs[0].expires <= states[j].now)
  }

  lemma RunMore(c: Config, states: seq<Sys>, actions: seq<Action>, a: Action, s: Sys)
    requires Run(c, states, actions)
    requires var last := states[|actions|]; Inv(c, last.dd, last.now) ==> Step(c, last, a, s)
    ensures Run(c, states + [s], actions + [a])
    ensures Dispatches(actions + [a]) == Dispatches(actions) + if a.Dispatch? then 1 else 0
  {
    assert (actions + [a])[..|actions|] == actions;
  }

  lemma StarvesMore(c: Config, states: seq<Sys>, actions: seq<Action>, n: nat, a: Action, s: Sys)
    requires Starves(c, states, actions, n)
    requires var last := states[|actions|]; Inv(c, last.dd, last.now) ==> Step(c, last, a, s)
    requires 0 in s.dd.reqs && !s.dd.reqs[0].write && s.dd.reqs[0].expires <= s.now
    ensures Starves(c, states + [s], actions + [a], n + if a.Dispatch? then 1 else 0)
  {
    RunMore(c, states, actions, a, s);
    assert (actions + [a])[..2] == actions[..2];
  }

  /** The read is queued, and its time passes. */
  lemma Prepared(c: Config) returns (states: seq<Sys>, actions: seq<Action>)
    requires c.Valid()
    ensures Starves(c, states, actions, 0) && states[|actions|] == Sys(Waiting(c, false), c.readExpire)
  {
    states := [Sys(EMPTY_DD, 0), Sys(Waiting(c, false), 0), Sys(Waiting(c, false), c.readExpire)];
    actions := [Add(0, Req(0, 8, false, 0)), Tick(c.readExpire)];
    assert EMPTY_DD.reqs[0 := Read(c)] == Waiting(c, false).reqs;
    assert [] + [0] == [0];
    assert actions[..2] == actions && actions[..1] == [actions[0]] && actions[..1][..0] == [];
    assert Dispatches(actions[..1]) == 0;
  }

  /**
   With writes_starved 0, whatever the other settings, there is for every `n` a run in which an expired read stays
   queued through `n` dispatches.
   */
  lemma {:induction false} ZeroPatienceStarvesReads(c: Config, n: nat) returns (states: seq<Sys>, actions: seq<Action>)
    requires c.Valid() && c.Patience() == 0
    ensures Starves(c, states, actions, n)
    ensures states[|actions|] == Sys(Waiting(c, n > 0), c.readExpire)
  {
    if n == 0 {
      states, actions := Prepared(c);
    } else {
      states, actions := ZeroPatienceStarvesReads(c, n - 1);
      var now := c.readExpire;
      WriteComes(c, n > 1);
      StarvesMore(c, states, actions, n - 1, Add(1, Write()), Sys(Joined(c, n > 1), now));
      states, actions := states + [Sys(Joined(c, n > 1), now)], actions + [Add(1, Write())];
      WriteGoes(c, n > 1);
      StarvesMore(c, states, actions, n - 1, Dispatch, Sys(Waiting(c, true), now));
      states, actions := states + [Sys(Waiting(c, true), now)], actions + [Dispatch];
    }
  }
}
