/**
  Runs in which a request is missed because its pool has left the list while its reply was
  pending: np_flush does not see it and answers at once, so that the reply comes after the
  Rflush; np_conn_flush does not see it either, and the reply comes after the close.
*/
module LifecycleMissedFlush {
  import opened Common
  import opened Lifecycle
  import opened LifecycleHistory
  import opened LifecycleTheorems

  function Q(): Req { Req(1, 0, Ordinary, Normal, None, Some(3), Held(false)) }
  function Pending(): Req { Req(1, 0, Ordinary, Normal, None, None, Working(5, Released)) }
  function F(): Req { Req(1, 1, Flush(0), Normal, None, None, Held(false)) }
  function Pools(queue: seq<ReqId>, work: seq<ReqId>, refs: int): map<PoolId, Pool> {
    map[0 := Pool("default", [], [], 1), 5 := Pool("/x", queue, work, refs)]
  }
  function Two(): map<ConnId, Conn> { map[1 := Conn(0, false, None), 2 := Conn(0, false, None)] }
  function Busy(): map<ConnId, Conn> { map[1 := Conn(1, false, None), 2 := Conn(0, false, None)] }
  function Origins(): map<ReqId, Origin> { map[7 := Origin(1, 0, Ordinary), 8 := Origin(1, 1, Flush(0))] }

  // the states of the run
  function M0(): State { Init(false) }
  function M1(): State { Init(false).(conns := map[1 := Conn(0, false, None)]) }
  function M2(): State { Init(false).(conns := Two()) }
  function M3(): State { M2().(fids := map[3 := Fid(None)]) }
  function M4(): State {
    State(true, false, [0, 5], Pools([], [], 1), map[], Two(), map[3 := Fid(Some(5))], map[], {}, [])
  }
  function M5(): State {
    M4().(reqs := map[7 := Q()], conns := map[1 := Conn(1, false, Some(7)), 2 := Conn(0, false, None)],
          origin := map[7 := Origin(1, 0, Ordinary)], log := [Got(7)])
  }
  function M6(): State { M5().(reqs := map[7 := Q().(at := Queued(5))], conns := Busy(), pools := Pools([7], [], 1)) }
  function M7(): State { M6().(reqs := map[7 := Q().(at := Working(5, Processing))], pools := Pools([], [7], 1)) }
  function M8(): State { M7().(reqs := map[7 := Pending()]) }
  function M9(): State { M8().(fids := map[], pools := Pools([], [7], 0)) }
  function M10(): State {
    M9().(conns := map[1 := Conn(1, false, None), 2 := Conn(0, true, None)], log := [Got(7), Closed(2)])
  }
  function M11(): State {
    State(true, false, [0], Pools([], [7], 0), map[7 := Pending()], map[1 := Conn(1, false, None)], map[],
          map[7 := Origin(1, 0, Ordinary)], {2}, [Got(7), Closed(2), Destroyed(2)])
  }
  function M12(): State {
    M11().(reqs := map[7 := Pending(), 8 := F()], conns := map[1 := Conn(2, false, Some(8))], origin := Origins(),
           log := [Got(7), Closed(2), Destroyed(2), Got(8)])
  }
  function M13(): State {
    M12().(reqs := map[7 := Pending(), 8 := F().(at := Held(true))],
           log := [Got(7), Closed(2), Destroyed(2), Got(8), NotFound(8)])
  }
  function M14(): State {
    M12().(reqs := map[7 := Pending()], conns := map[1 := Conn(1, false, None)],
           log := [Got(7), Closed(2), Destroyed(2), Got(8), NotFound(8), Rflush(8), Freed(8)])
  }
  function M15(): State {
    M14().(reqs := map[7 := Pending().(at := Working(5, Replied))],
           log := [Got(7), Closed(2), Destroyed(2), Got(8), NotFound(8), Rflush(8), Freed(8), Replies(7)])
  }

  ghost predicate Reachable(s: State) {
    exists ss, acts :: Run(ss, acts) && ss[|acts|] == s
  }

  lemma Then(s: State, a: Action, t: State)
    requires Reachable(s) && Enabled(s, a) && Next(s, a) == t
    ensures Reachable(t)
  {
    var ss, acts :| Run(ss, acts) && ss[|acts|] == s;
    var ss', acts' := ss + [t], acts + [a];
    forall i | 0 <= i < |acts'| ensures Enabled(ss'[i], acts'[i]) && ss'[i + 1] == Next(ss'[i], acts'[i]) {
      if i < |acts| { assert ss'[i] == ss[i] && ss'[i + 1] == ss[i + 1] && acts'[i] == acts[i]; }
    }
    assert Run(ss', acts') && ss'[|acts'|] == t;
  }

  lemma Start()
    ensures Reachable(M0())
  {
    assert Run([M0()], []);
  }

  lemma NothingToSilence(s: State, p: PoolId, c: ConnId)
    requires p in s.pools && forall r :: r in s.reqs && r in s.pools[p].work ==> s.reqs[r].conn != c
    ensures Silence(s, p, c) == s
  {
    assert Silence(s, p, c).reqs == s.reqs;
  }

  /** Closing a connection without requests changes nothing in the pools. */
  lemma {:induction false} NothingToClose(s: State, ps: seq<PoolId>, c: ConnId)
    requires forall p :: p in ps ==> p in s.pools && s.pools[p].queue == [] && Silence(s, p, c) == s
    ensures ClosePools(s, ps, c) == s
  {
    if ps != [] {
      NothingToClose(s, ps[1..], c);
      assert ps[0] in ps;
    }
  }

  lemma CloseStep()
    ensures Enabled(M9(), CloseConn(2)) && Next(M9(), CloseConn(2)) == M10()
  {
    var s := M9();
    NothingToSilence(s, 0, 2);
    NothingToSilence(s, 5, 2);
    NothingToClose(s, [0, 5], 2);
  }

  lemma AnswerStep()
    ensures Enabled(M13(), AnswerFlush(1)) && Next(M13(), AnswerFlush(1)) == M14()
  {
    var s := M13();
    var t := SendFlush(LetGo(s, 1), 8);
    assert t.reqs - {8} == M14().reqs && AddRefs(t.conns, 1, -1) == M14().conns;
    assert Unref(t, 8) == Log(t.(reqs := M14().reqs, conns := M14().conns), Freed(8));
    assert t.log + [Freed(8)] == M14().log;
  }

  lemma DestroyStep()
    ensures Enabled(M10(), DestroyConn(2)) && Next(M10(), DestroyConn(2)) == M11()
  {
    var s := M10().(conns := M11().conns, oldConns := {2});
    assert Kept(s, [5]) == [];
    assert Kept(s, [0, 5]) == [0];
    assert M10().conns - {2} == M11().conns && M10().oldConns + {2} == {2};
    assert Cleanup(s).order == [0];
  }

  lemma Step0()
    ensures Reachable(M1())
  {
    Start();
    Then(M0(), NewConn(1), M1());
  }

  lemma Step1()
    ensures Reachable(M2())
  {
    Step0();
    Then(M1(), NewConn(2), M2());
  }

  lemma Step2()
    ensures Reachable(M3())
  {
    Step1();
    Then(M2(), NewFid(3), M3());
  }

  lemma Step3()
    ensures Reachable(M4())
  {
    Step2();
    Then(M3(), SelectPool(3, "/x", 5), M4());
  }

  lemma Step4()
    ensures Reachable(M5())
  {
    Step3();
    Then(M4(), Receive(1, 7, 0, Ordinary, Some(3)), M5());
  }

  lemma Step5()
    ensures Reachable(M6())
  {
    Step4();
    var t := DoEnqueue(M5(), 1);
    assert t.pools[5].queue == [7] && t.pools == M6().pools && t.conns == M6().conns && t.reqs == M6().reqs;
    Then(M5(), Enqueue(1), M6());
  }

  lemma Step6()
    ensures Reachable(M7())
  {
    Step5();
    var t := DoTake(M6(), 5);
    assert t.pools[5].queue == [] && t.pools[5].work == [7] && t.pools == M7().pools && t.reqs == M7().reqs;
    Then(M6(), Take(5), M7());
  }

  lemma Step7()
    ensures Reachable(M8())
  {
    Step6();
    Then(M7(), Release(7, false), M8());
  }

  lemma Step8()
    ensures Reachable(M9())
  {
    Step7();
    Then(M8(), DestroyFid(3), M9());
  }

  lemma Step9()
    ensures Reachable(M10())
  {
    Step8();
    CloseStep();
    Then(M9(), CloseConn(2), M10());
  }

  lemma Step10()
    ensures Reachable(M11())
  {
    Step9();
    DestroyStep();
    Then(M10(), DestroyConn(2), M11());
  }

  lemma Step11()
    ensures Reachable(M12())
  {
    Step10();
    Then(M11(), Receive(1, 8, 1, Flush(0), None), M12());
  }

  lemma Step12()
    ensures Reachable(M13())
  {
    Step11();
    assert Search(M12(), [0], 1, 0) == Nowhere;
    Then(M12(), FlushReq(1), M13());
  }

  lemma Step13()
    ensures Reachable(M14())
  {
    Step12();
    AnswerStep();
    Then(M13(), AnswerFlush(1), M14());
  }

  lemma Step14()
    ensures Reachable(M15())
  {
    Step13();
    Then(M14(), Respond(7), M15());
  }

  /** So an Rflush before the reply can happen, though the request was being worked on. */
  lemma FlushCanMiss()
    ensures exists s, f, q :: Reachable(s) && RepliesAfterRflush(s, f, q)
  {
    Step14();
    var log := M15().log;
    assert log[0] == Got(7) && log[3] == Got(8) && log[5] == Rflush(8) && log[7] == Replies(7);
    assert RepliesAfterRflush(M15(), 8, 7);
  }

  // ---- the same with the close of the connection ----

  function C12(): State {
    M11().(conns := map[1 := Conn(1, true, None)], log := [Got(7), Closed(2), Destroyed(2), Closed(1)])
  }
  function C13(): State {
    C12().(reqs := map[7 := Pending().(at := Working(5, Replied))],
           log := [Got(7), Closed(2), Destroyed(2), Closed(1), Replies(7)])
  }

  lemma CloseBusy()
    ensures Enabled(M11(), CloseConn(1)) && Next(M11(), CloseConn(1)) == C12()
  {
    var s := M11();
    NothingToSilence(s, 0, 1);
    NothingToClose(s, [0], 1);
  }

  lemma Step11Close()
    ensures Reachable(C12())
  {
    Step10();
    CloseBusy();
    Then(M11(), CloseConn(1), C12());
  }

  lemma Step12Close()
    ensures Reachable(C13())
  {
    Step11Close();
    Then(C12(), Respond(7), C13());
  }

  /** So a reply can be sent on a connection that was closed before. */
  lemma CloseCanMiss()
    ensures exists s, r, c :: Reachable(s) && r in s.origin && s.origin[r].conn == c && Before(s.log, Closed(c), Replies(r))
  {
    Step12Close();
    var s := C13();
    assert s.log[3] == Closed(1) && s.log[4] == Replies(7);
    assert s.origin[7].conn == 1 && Before(s.log, Closed(1), Replies(7));
  }
}
