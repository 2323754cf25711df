/**
  The credentials of a worker thread, kept twice: by the kernel, and in the worker's own copy
  that np_setfsid consults to save system calls.
*/
module Credentials {
  import opened Common

  const NONUNAME: nat := 0xFFFF_FFFF

  /** The worker's copy, then the kernel's thread credentials. */
  datatype Creds = Creds(
    fsuid: nat, fsgid: nat, privcap: bool,
    kuid: nat, kgid: nat, kcap: bool, kgroups: seq<nat>)

  /** Server flags; they do not change while the server runs. */
  datatype Flags = Flags(setFsid: bool, dacBypass: bool, noUserDb: bool, setGroups: bool)

  /** setfsuid and setfsgid return the former id whether they obey or not. */
  datatype Answer = Obeyed | Refused | Failed

  /** One call of np_setfsid, with what the kernel will answer. */
  datatype Call = Call(
    uid: nat, gid: nat, sg: seq<nat>, gidOverride: nat, authUid: nat,
    gidAnswer: Answer, uidAnswer: Answer, groupsSet: bool, capChanged: bool)

  function Wanted(c: Call): nat {
    if c.gidOverride == NONUNAME then c.gid else c.gidOverride
  }

  /** np_wthread_create */
  function Started(euid: nat, egid: nat, groups: seq<nat>): Creds {
    Creds(euid, egid, euid == 0, euid, egid, euid == 0, groups)
  }

  // ---- the kernel ----

  function KernelSetGid(w: Creds, gid: nat, a: Answer): Creds {
    if a.Obeyed? then w.(kgid := gid) else w
  }

  /** Leaving uid 0 drops the file system capabilities and going to it raises them. */
  function KernelSetUid(w: Creds, uid: nat, a: Answer): Creds {
    if a.Obeyed? then w.(kuid := uid, kcap := if w.kuid == 0 then uid == 0 else w.kcap || uid == 0) else w
  }

  // ---- np_setfsid ----

  predicate GidAllowed(fl: Flags, c: Call) {
    c.gidOverride == NONUNAME || c.uid == 0 || c.authUid == 0 || fl.noUserDb || c.gidOverride in c.sg
  }

  function GidAfter(w: Creds, c: Call): (Creds, bool) {
    if w.fsgid == Wanted(c) then (w, true)
    else
      var k := KernelSetGid(w, Wanted(c), c.gidAnswer);
      if c.gidAnswer.Failed? || w.kgid != w.fsgid then (k.(fsgid := NONUNAME), false)
      else (k.(fsgid := Wanted(c)), true)
  }

  function UidAfter(fl: Flags, w: Creds, c: Call): (Creds, bool) {
    if w.fsuid == c.uid then (w, true)
    else
      var k := KernelSetUid(w, c.uid, c.uidAnswer);
      if c.uidAnswer.Failed? || w.kuid != w.fsuid then (k.(fsuid := NONUNAME), false)
      else
        var p := k.(privcap := if c.uid == 0 then true else if w.fsuid == 0 then false else w.privcap);
        if fl.setGroups && !c.groupsSet then (p.(fsuid := NONUNAME), false)
        else (p.(fsuid := c.uid, kgroups := if fl.setGroups then c.sg else w.kgroups), true)
  }

  function CapAfter(fl: Flags, w: Creds, c: Call): (Creds, bool) {
    if fl.dacBypass && w.fsuid != 0 && w.privcap != (c.authUid == 0) then
      if c.capChanged then (w.(kcap := c.authUid == 0, privcap := c.authUid == 0), true) else (w, false)
    else (w, true)
  }

  function IdsAfter(fl: Flags, w: Creds, c: Call): (Creds, bool) {
    if !GidAllowed(fl, c) then (w, false)
    else
      var g := GidAfter(w, c);
      if g.1 then UidAfter(fl, g.0, c) else g
  }

  function After(fl: Flags, w: Creds, c: Call): (Creds, bool) {
    var i := if fl.setFsid then IdsAfter(fl, w, c) else (w, true);
    if i.1 then CapAfter(fl, i.0, c) else i
  }

  // ---- the worker ----

  class Worker {
    var w: Creds
    const fl: Flags

    /** np_wthread_create */
    constructor (fl: Flags, euid: nat, egid: nat, groups: seq<nat>)
      ensures w == Started(euid, egid, groups) && this.fl == fl
    {
      this.fl := fl;
      w := Creds(euid, egid, if euid == 0 then true else false, euid, egid, euid == 0, groups);
    }

    /** The kernel is asked for a gid; what it returns is the former one. */
    method AskGid(gid: nat, a: Answer) returns (n: Option<nat>)
      modifies this
      ensures w == KernelSetGid(old(w), gid, a)
      ensures n == if a.Failed? then None else Some(old(w.kgid))
    {
      n := if a.Failed? then None else Some(w.kgid);
      if a.Obeyed? {
        w := w.(kgid := gid);
      }
    }

    method AskUid(uid: nat, a: Answer) returns (n: Option<nat>)
      modifies this
      ensures w == KernelSetUid(old(w), uid, a)
      ensures n == if a.Failed? then None else Some(old(w.kuid))
    {
      n := if a.Failed? then None else Some(w.kuid);
      if a.Obeyed? {
        if uid == 0 {
          w := w.(kcap := true);
        } else if w.kuid == 0 {
          w := w.(kcap := false);
        }
        w := w.(kuid := uid);
      }
    }

    method CheckOverride(c: Call) returns (ok: bool)
      ensures ok == GidAllowed(fl, c)
    {
      ok := true;
      if c.gidOverride != NONUNAME && c.uid != 0 && c.authUid != 0 && !fl.noUserDb {
        var i := 0;
        while i < |c.sg| && c.sg[i] != c.gidOverride
          invariant 0 <= i <= |c.sg|
          invariant c.gidOverride !in c.sg[..i]
        {
          i := i + 1;
        }
        ok := i != |c.sg|;
        assert c.sg[..|c.sg|] == c.sg;
      }
    }

    method SwitchGid(c: Call) returns (ok: bool)
      modifies this
      ensures (w, ok) == GidAfter(old(w), c)
    {
      var gid := if c.gidOverride == NONUNAME then c.gid else c.gidOverride;
      if w.fsgid != gid {
        var n := AskGid(gid, c.gidAnswer);
        if n.None? || n.value != w.fsgid {
          w := w.(fsgid := NONUNAME);
          return false;
        }
        w := w.(fsgid := gid);
      }
      ok := true;
    }

    method SwitchUid(c: Call) returns (ok: bool)
      modifies this
      ensures (w, ok) == UidAfter(fl, old(w), c)
    {
      if w.fsuid != c.uid {
        var n := AskUid(c.uid, c.uidAnswer);
        if n.None? || n.value != w.fsuid {
          w := w.(fsuid := NONUNAME);
          return false;
        }
        if c.uid == 0 {
          w := w.(privcap := true);
        } else if w.fsuid == 0 {
          w := w.(privcap := false);
        }
        if fl.setGroups {
          if !c.groupsSet {
            w := w.(fsuid := NONUNAME);
            return false;
          }
          w := w.(kgroups := c.sg);
        }
        w := w.(fsuid := c.uid);
      }
      ok := true;
    }

    /** np_setfsid */
    method SetFsid(c: Call) returns (ok: bool)
      modifies this
      ensures (w, ok) == After(fl, old(w), c)
    {
      ok := true;
      if fl.setFsid {
        ok := CheckOverride(c);
        if !ok {
          return;
        }
        ok := SwitchGid(c);
        if !ok {
          return;
        }
        ok := SwitchUid(c);
        if !ok {
          return;
        }
      }
      if fl.dacBypass && w.fsuid != 0 {
        if !w.privcap && c.authUid == 0 {
          if !c.capChanged {
            return false;
          }
          w := w.(kcap := true, privcap := true);
        } else if w.privcap && c.authUid != 0 {
          if !c.capChanged {
            return false;
          }
          w := w.(kcap := false, privcap := false);
        }
      }
    }
  }

  // ---- runs of one worker ----

  /** The kernel knows the ids asked for, and does not disobey in silence. */
  predicate Honest(c: Call) {
    && c.uid != NONUNAME && c.gid != NONUNAME
    && !c.gidAnswer.Refused? && !c.uidAnswer.Refused?
  }

  ghost predicate Run(fl: Flags, ws: seq<Creds>, calls: seq<Call>) {
    && |ws| == |calls| + 1
    && (exists euid, egid, groups :: euid != NONUNAME && egid != NONUNAME && ws[0] == Started(euid, egid, groups))
    && forall i :: 0 <= i < |calls| ==> Honest(calls[i]) && ws[i + 1] == After(fl, ws[i], calls[i]).0
  }

  /** The copy is the kernel's state; uid 0 has the capabilities, and without the bypass only uid 0. */
  predicate Agrees(fl: Flags, w: Creds) {
    && w.fsuid == w.kuid && w.fsgid == w.kgid && w.privcap == w.kcap
    && (w.kuid == 0 ==> w.kcap)
    && (!fl.dacBypass && w.kcap ==> w.kuid == 0)
  }

  /** A switch has failed: the copy says so, and the kernel has no such id. */
  predicate Spoilt(w: Creds) {
    w.fsuid == NONUNAME || w.fsgid == NONUNAME
  }

  /** The kernel's ids are real, and each part of the copy is right unless it is spoilt. */
  predicate Good(fl: Flags, w: Creds) {
    && w.kuid != NONUNAME && w.kgid != NONUNAME
    && (w.fsgid == w.kgid || w.fsgid == NONUNAME) && (w.fsuid == w.kuid || w.fsuid == NONUNAME)
    && (w.fsuid == w.kuid ==>
        w.privcap == w.kcap && (w.kuid == 0 ==> w.kcap) && (!fl.dacBypass && w.kcap ==> w.kuid == 0))
  }

  /** The call fails in the gid, uid or group switch. */
  predicate SwitchFails(fl: Flags, w: Creds, c: Call) {
    fl.setFsid && GidAllowed(fl, c) && !IdsAfter(fl, w, c).1
  }

  /** What the ids are after the switches: as asked for, or one of them spoilt. */
  lemma GidSwitched(w: Creds, c: Call)
    requires Honest(c) && w.kgid != NONUNAME && (w.fsgid == w.kgid || w.fsgid == NONUNAME)
    ensures var (t, ok) := GidAfter(w, c);
      && t == w.(fsgid := t.fsgid, kgid := t.kgid) && t.kgid != NONUNAME
      && (if ok then t.fsgid == t.kgid == Wanted(c) && w.fsgid != NONUNAME else t.fsgid == NONUNAME)
  {
  }

  lemma UidSwitched(fl: Flags, w: Creds, c: Call)
    requires Honest(c) && w.kuid != NONUNAME && (w.fsuid == w.kuid || w.fsuid == NONUNAME)
    requires w.fsuid == w.kuid ==> w.privcap == w.kcap && (w.kuid == 0 ==> w.kcap)
    requires w.fsuid == w.kuid && !fl.dacBypass && w.kcap ==> w.kuid == 0
    ensures var (t, ok) := UidAfter(fl, w, c);
      && t.fsgid == w.fsgid && t.kgid == w.kgid && t.kuid != NONUNAME
      && (if ok then t.fsuid == t.kuid == c.uid && w.fsuid != NONUNAME && t.privcap == t.kcap
                     && (t.kuid == 0 ==> t.kcap) && (!fl.dacBypass && t.kcap ==> t.kuid == 0)
          else t.fsuid == NONUNAME)
  {
  }

  lemma IdsSwitched(fl: Flags, w: Creds, c: Call)
    requires Good(fl, w) && Honest(c)
    ensures var (t, ok) := IdsAfter(fl, w, c);
      if !GidAllowed(fl, c) then t == w && !ok
      else Good(fl, t) && (Spoilt(w) ==> !ok)
           && (if ok then Agrees(fl, t) && t.kuid == c.uid && t.kgid == Wanted(c) else Spoilt(t))
  {
    GidSwitched(w, c);
    UidSwitched(fl, GidAfter(w, c).0, c);
  }

  lemma StepGood(fl: Flags, w: Creds, c: Call)
    requires Good(fl, w) && Honest(c)
    ensures Good(fl, After(fl, w, c).0)
    ensures fl.setFsid && Spoilt(w) ==> Spoilt(After(fl, w, c).0) && !After(fl, w, c).1
    ensures Agrees(fl, w) && !SwitchFails(fl, w, c) ==> Agrees(fl, After(fl, w, c).0)
    ensures SwitchFails(fl, w, c) ==> Spoilt(After(fl, w, c).0)
  {
    IdsSwitched(fl, w, c);
  }

  lemma {:induction false} RunGood(fl: Flags, ws: seq<Creds>, calls: seq<Call>, n: nat)
    requires Run(fl, ws, calls) && n < |ws|
    ensures Good(fl, ws[n]) && (!fl.setFsid ==> Agrees(fl, ws[n]))
  {
    if n > 0 {
      RunGood(fl, ws, calls, n - 1);
      StepGood(fl, ws[n - 1], calls[n - 1]);
    }
  }

  /**
    When np_setfsid succeeds the kernel has the uid and gid that were asked for, and the
    capabilities are on exactly for uid 0 or, with the bypass, for a client authenticated as root.
  */
  lemma SuccessIsExact(fl: Flags, ws: seq<Creds>, calls: seq<Call>, n: nat)
    requires Run(fl, ws, calls) && n < |calls| && After(fl, ws[n], calls[n]).1
    ensures fl.setFsid ==> ws[n + 1].kuid == calls[n].uid && ws[n + 1].kgid == Wanted(calls[n])
    ensures ws[n + 1].kcap <==> ws[n + 1].kuid == 0 || (fl.dacBypass && calls[n].authUid == 0)
    ensures Agrees(fl, ws[n + 1])
  {
    RunGood(fl, ws, calls, n);
    StepGood(fl, ws[n], calls[n]);
    IdsSwitched(fl, ws[n], calls[n]);
  }

  /** A success runs with the override if there is one and else with the user's own gid, and an override is one of the
      user's groups unless the user, or the client, is root or there is no user database. */
  lemma GidPermitted(fl: Flags, ws: seq<Creds>, calls: seq<Call>, n: nat)
    requires Run(fl, ws, calls) && n < |calls| && fl.setFsid && After(fl, ws[n], calls[n]).1
    ensures var c, g := calls[n], ws[n + 1].kgid;
            && g == (if c.gidOverride == NONUNAME then c.gid else c.gidOverride)
            && (g == c.gid || g in c.sg || c.uid == 0 || c.authUid == 0 || fl.noUserDb)
  {
    SuccessIsExact(fl, ws, calls, n);
  }

  /** An override that is none of these is refused, and nothing is switched. */
  lemma OverrideRefused(fl: Flags, w: Creds, c: Call)
    requires fl.setFsid && c.gidOverride != NONUNAME && c.gidOverride !in c.sg
    requires c.uid != 0 && c.authUid != 0 && !fl.noUserDb
    ensures After(fl, w, c) == (w, false)
  {
  }

  /** Whether the thread has the capabilities once its uid is `uid`. */
  predicate CapAt(w: Creds, uid: nat) {
    if w.kuid == uid then w.kcap else if uid == 0 then true else w.kuid != 0 && w.kcap
  }

  /** As long as no switch has failed, a call succeeds exactly if its override may be used, the kernel obeys the
      switches that are needed, and the capabilities can be changed if they have to be. */
  lemma SucceedsExactly(fl: Flags, ws: seq<Creds>, calls: seq<Call>, n: nat)
    requires Run(fl, ws, calls) && n < |calls| && Agrees(fl, ws[n])
    ensures var w, c := ws[n], calls[n];
            var gid := if c.gidOverride == NONUNAME then c.gid else c.gidOverride;
            var uid := if fl.setFsid then c.uid else w.kuid;
            After(fl, w, c).1 <==>
              && (fl.setFsid ==>
                    && (c.gidOverride == NONUNAME || c.gidOverride in c.sg || c.uid == 0 || c.authUid == 0 || fl.noUserDb)
                    && (w.kgid == gid || c.gidAnswer.Obeyed?)
                    && (w.kuid == uid || (c.uidAnswer.Obeyed? && (fl.setGroups ==> c.groupsSet))))
              && (fl.dacBypass && uid != 0 && CapAt(w, uid) != (c.authUid == 0) ==> c.capChanged)
  {
    RunGood(fl, ws, calls, n);
    GidSwitched(ws[n], calls[n]);
  }

  lemma {:induction false} StaysSpoilt(fl: Flags, ws: seq<Creds>, calls: seq<Call>, m: nat, n: nat)
    requires Run(fl, ws, calls) && m < n < |ws| && SwitchFails(fl, ws[m], calls[m])
    ensures Spoilt(ws[n])
  {
    RunGood(fl, ws, calls, n - 1);
    if m < n - 1 {
      StaysSpoilt(fl, ws, calls, m, n - 1);
    }
    SpoiltOn(fl, ws[n - 1], calls[n - 1], ws[n]);
  }

  lemma SpoiltOn(fl: Flags, w: Creds, c: Call, t: Creds)
    requires Good(fl, w) && Honest(c) && fl.setFsid && (Spoilt(w) || SwitchFails(fl, w, c)) && t == After(fl, w, c).0
    ensures Spoilt(t) && !After(fl, w, c).1
  {
    StepGood(fl, w, c);
  }

  /** Once a switch has failed, every later call on the worker fails. */
  lemma NoneAfterFailure(fl: Flags, ws: seq<Creds>, calls: seq<Call>, m: nat, n: nat)
    requires Run(fl, ws, calls) && m < n < |calls| && SwitchFails(fl, ws[m], calls[m])
    ensures !After(fl, ws[n], calls[n]).1
  {
    RunGood(fl, ws, calls, n);
    StaysSpoilt(fl, ws, calls, m, n);
    SpoiltOn(fl, ws[n], calls[n], ws[n + 1]);
  }

  /** A call that fails without a failed switch leaves copy and kernel in agreement. */
  lemma OtherFailuresHarmless(fl: Flags, ws: seq<Creds>, calls: seq<Call>, n: nat)
    requires Run(fl, ws, calls) && n < |calls| && Agrees(fl, ws[n]) && !SwitchFails(fl, ws[n], calls[n])
    ensures Agrees(fl, ws[n + 1])
  {
    RunGood(fl, ws, calls, n);
    StepGood(fl, ws[n], calls[n]);
  }

  /** The groups are those of the last user switched to: a call that finds its uid in place leaves them. */
  lemma GroupsFollowSwitch(fl: Flags, ws: seq<Creds>, calls: seq<Call>, n: nat)
    requires Run(fl, ws, calls) && n < |calls| && After(fl, ws[n], calls[n]).1 && fl.setFsid && fl.setGroups
    ensures ws[n + 1].kgroups == if ws[n].kuid == calls[n].uid then ws[n].kgroups else calls[n].sg
  {
    RunGood(fl, ws, calls, n);
    StepGood(fl, ws[n], calls[n]);
  }

  // ---- a kernel that may refuse in silence ----

  predicate Real(c: Call) {
    c.uid != NONUNAME && c.gid != NONUNAME
  }

  /** Calls with any answers. */
  ghost predicate AnyRun(fl: Flags, ws: seq<Creds>, calls: seq<Call>) {
    && |ws| == |calls| + 1
    && (exists euid, egid, groups :: euid != NONUNAME && egid != NONUNAME && ws[0] == Started(euid, egid, groups))
    && forall i :: 0 <= i < |calls| ==> Real(calls[i]) && ws[i + 1] == After(fl, ws[i], calls[i]).0
  }

  /** The call gets as far as asking the kernel for a gid. */
  predicate AsksGid(fl: Flags, w: Creds, c: Call) {
    fl.setFsid && GidAllowed(fl, c) && w.fsgid != Wanted(c)
  }

  predicate AsksUid(fl: Flags, w: Creds, c: Call) {
    fl.setFsid && GidAllowed(fl, c) && GidAfter(w, c).1 && w.fsuid != c.uid
  }

  /** What the kernel did when it was last asked for a gid in the first `n` calls. */
  ghost function LastGid(fl: Flags, ws: seq<Creds>, calls: seq<Call>, n: nat): Option<Answer>
    requires n <= |calls| && n <= |ws|
  {
    if n == 0 then None
    else if AsksGid(fl, ws[n - 1], calls[n - 1]) then Some(calls[n - 1].gidAnswer)
    else LastGid(fl, ws, calls, n - 1)
  }

  ghost function LastUid(fl: Flags, ws: seq<Creds>, calls: seq<Call>, n: nat): Option<Answer>
    requires n <= |calls| && n <= |ws|
  {
    if n == 0 then None
    else if AsksUid(fl, ws[n - 1], calls[n - 1]) then Some(calls[n - 1].uidAnswer)
    else LastUid(fl, ws, calls, n - 1)
  }

  predicate WasObeyed(a: Option<Answer>) {
    a.None? || a.value.Obeyed?
  }

  /** The gid of copy and kernel after a call is what the gid switch leaves. */
  lemma GidFields(fl: Flags, w: Creds, c: Call)
    ensures var (t, ok) := After(fl, w, c);
            var (g, passed) := if fl.setFsid && GidAllowed(fl, c) then GidAfter(w, c) else (w, true);
            t.fsgid == g.fsgid && t.kgid == g.kgid && (fl.setFsid && ok ==> GidAllowed(fl, c)) && (ok ==> passed)
  {
  }

  lemma UidFields(fl: Flags, w: Creds, c: Call)
    ensures var (t, ok) := After(fl, w, c);
            var reached := fl.setFsid && GidAllowed(fl, c) && GidAfter(w, c).1;
            var (u, passed) := if reached then UidAfter(fl, GidAfter(w, c).0, c) else (w, !fl.setFsid);
            t.fsuid == u.fsuid && t.kuid == u.kuid && (ok ==> passed)
  {
  }

  /** What one switch does: the id in the copy and in the kernel before and after, and whether it was asked for. */
  predicate Switch(copy: nat, kernel: nat, copy': nat, kernel': nat, asked: bool, want: nat, a: Answer, ok: bool) {
    && kernel' != NONUNAME
    && (!asked ==> copy' == copy) && (!asked || !a.Obeyed? ==> kernel' == kernel)
    && (asked && copy' != NONUNAME ==> kernel == copy && copy' == want && (kernel' == copy' <==> a.Obeyed?))
    && (asked && kernel != copy ==> copy' == NONUNAME && !ok)
    && (ok ==> copy' == want)
  }

  lemma GidPart(w: Creds, c: Call)
    requires Real(c) && w.kgid != NONUNAME
    ensures var (t, ok) := GidAfter(w, c);
            Switch(w.fsgid, w.kgid, t.fsgid, t.kgid, w.fsgid != Wanted(c), Wanted(c), c.gidAnswer, ok)
  {
  }

  lemma UidPart(fl: Flags, w: Creds, c: Call)
    requires Real(c) && w.kuid != NONUNAME
    ensures var (t, ok) := UidAfter(fl, w, c);
            Switch(w.fsuid, w.kuid, t.fsuid, t.kuid, w.fsuid != c.uid, c.uid, c.uidAnswer, ok)
  {
  }

  lemma GidStep(fl: Flags, w: Creds, c: Call)
    requires Real(c) && w.kgid != NONUNAME
    ensures var (t, ok) := After(fl, w, c);
            Switch(w.fsgid, w.kgid, t.fsgid, t.kgid, AsksGid(fl, w, c), Wanted(c), c.gidAnswer, fl.setFsid && ok)
  {
    GidFields(fl, w, c);
    GidPart(w, c);
  }

  lemma UidStep(fl: Flags, w: Creds, c: Call)
    requires Real(c) && w.kuid != NONUNAME
    ensures var (t, ok) := After(fl, w, c);
            Switch(w.fsuid, w.kuid, t.fsuid, t.kuid, AsksUid(fl, w, c), c.uid, c.uidAnswer, fl.setFsid && ok)
  {
    UidFields(fl, w, c);
    GidLeavesUid(w, c);
    UidPart(fl, GidAfter(w, c).0, c);
  }

  lemma GidLeavesUid(w: Creds, c: Call)
    ensures GidAfter(w, c).0.fsuid == w.fsuid && GidAfter(w, c).0.kuid == w.kuid
  {
  }

  /** The copy is right exactly if the kernel obeyed when it was last asked, or it says NONUNAME. */
  lemma {:induction false} CopyRight(fl: Flags, ws: seq<Creds>, calls: seq<Call>, n: nat)
    requires AnyRun(fl, ws, calls) && n < |ws|
    ensures ws[n].kuid != NONUNAME && ws[n].kgid != NONUNAME
    ensures ws[n].fsuid != NONUNAME ==> (ws[n].fsuid == ws[n].kuid <==> WasObeyed(LastUid(fl, ws, calls, n)))
    ensures ws[n].fsgid != NONUNAME ==> (ws[n].fsgid == ws[n].kgid <==> WasObeyed(LastGid(fl, ws, calls, n)))
  {
    if n > 0 {
      CopyRight(fl, ws, calls, n - 1);
      GidStep(fl, ws[n - 1], calls[n - 1]);
      UidStep(fl, ws[n - 1], calls[n - 1]);
    }
  }

  /** A successful call runs with the uid it asked for exactly if the last uid switch attempted,
      in this call or an earlier one, was obeyed; and likewise for the gid. */
  lemma SuccessExactly(fl: Flags, ws: seq<Creds>, calls: seq<Call>, n: nat)
    requires AnyRun(fl, ws, calls) && n < |calls| && fl.setFsid && After(fl, ws[n], calls[n]).1
    ensures ws[n + 1].kuid == calls[n].uid <==> WasObeyed(LastUid(fl, ws, calls, n + 1))
    ensures ws[n + 1].kgid == Wanted(calls[n]) <==> WasObeyed(LastGid(fl, ws, calls, n + 1))
  {
    CopyRight(fl, ws, calls, n);
    CopyRight(fl, ws, calls, n + 1);
    GidStep(fl, ws[n], calls[n]);
    UidStep(fl, ws[n], calls[n]);
  }

  /** The call reports a uid switch that the kernel refused as done. */
  predicate UidRefused(fl: Flags, w: Creds, c: Call) {
    AsksUid(fl, w, c) && c.uidAnswer.Refused? && After(fl, w, c).0.fsuid == c.uid
  }

  lemma {:induction false} StaysRefused(fl: Flags, ws: seq<Creds>, calls: seq<Call>, j: nat, n: nat)
    requires AnyRun(fl, ws, calls) && j < n < |ws| && UidRefused(fl, ws[j], calls[j])
    requires forall k :: j < k < n ==> !AsksUid(fl, ws[k], calls[k])
    ensures ws[n].fsuid == calls[j].uid && ws[n].kuid == ws[j].kuid != calls[j].uid
  {
    CopyRight(fl, ws, calls, n - 1);
    if j < n - 1 {
      StaysRefused(fl, ws, calls, j, n - 1);
      UidStep(fl, ws[n - 1], calls[n - 1]);
    } else {
      RefusedOnce(fl, ws[j], calls[j]);
    }
  }

  lemma RefusedOnce(fl: Flags, w: Creds, c: Call)
    requires Real(c) && w.kuid != NONUNAME && UidRefused(fl, w, c)
    ensures After(fl, w, c).0.fsuid == c.uid && After(fl, w, c).0.kuid == w.kuid != c.uid
  {
    UidStep(fl, w, c);
  }

  /** A worker without a uid in its copy stays without, and its calls fail. */
  lemma {:induction false} NoUidStep(fl: Flags, w: Creds, c: Call)
    requires Real(c) && w.kuid != NONUNAME && fl.setFsid && w.fsuid == NONUNAME
    ensures After(fl, w, c).0.fsuid == NONUNAME && !After(fl, w, c).1
  {
    UidStep(fl, w, c);
  }

  lemma {:induction false} NoUidFrom(fl: Flags, ws: seq<Creds>, calls: seq<Call>, m: nat, n: nat)
    requires AnyRun(fl, ws, calls) && m <= n < |calls| && fl.setFsid && ws[m].fsuid == NONUNAME
    ensures ws[n].fsuid == NONUNAME && !After(fl, ws[n], calls[n]).1
  {
    if m < n {
      NoUidFrom(fl, ws, calls, m, n - 1);
      CopyRight(fl, ws, calls, n - 1);
      NoUidStep(fl, ws[n - 1], calls[n - 1]);
    }
    CopyRight(fl, ws, calls, n);
    NoUidStep(fl, ws[n], calls[n]);
  }

  /**
    After a uid switch that the kernel refused and np_setfsid reported as done: calls for the same
    uid pass the uid switch, and run under the uid the kernel kept; the first call that needs
    another uid fails, and so does every call after it.
  */
  lemma AfterRefusal(fl: Flags, ws: seq<Creds>, calls: seq<Call>, j: nat, n: nat)
    requires AnyRun(fl, ws, calls) && j < n < |calls| && UidRefused(fl, ws[j], calls[j])
    requires forall k :: j < k < n ==> !AsksUid(fl, ws[k], calls[k])
    ensures calls[n].uid == calls[j].uid ==>
              UidAfter(fl, GidAfter(ws[n], calls[n]).0, calls[n]).1 && ws[n + 1].kuid == ws[j].kuid != calls[n].uid
    ensures AsksUid(fl, ws[n], calls[n]) <==> GidAllowed(fl, calls[n]) && GidAfter(ws[n], calls[n]).1 && calls[n].uid != calls[j].uid
    ensures AsksUid(fl, ws[n], calls[n]) ==> forall m :: n <= m < |calls| ==> !After(fl, ws[m], calls[m]).1
  {
    StaysRefused(fl, ws, calls, j, n);
    CopyRight(fl, ws, calls, n);
    UidStep(fl, ws[n], calls[n]);
    if AsksUid(fl, ws[n], calls[n]) {
      forall m | n < m < |calls| ensures !After(fl, ws[m], calls[m]).1 {
        NoUidFrom(fl, ws, calls, n + 1, m);
      }
    }
  }

  /** A root worker that is refused uid 5: two calls run as root, then uid 7 fails, and then uid 5 too. */
  lemma RefusedRun(fl: Flags, c: Call)
    requires fl == Flags(true, false, false, false)
    requires c == Call(5, 0, [], NONUNAME, 5, Obeyed, Refused, true, true)
    ensures exists ws: seq<Creds> ::
      && AnyRun(fl, ws, [c, c, c.(uid := 7), c])
      && After(fl, ws[0], c).1 && ws[1].kuid == 0 && After(fl, ws[1], c).1 && ws[2].kuid == 0
      && !After(fl, ws[2], c.(uid := 7)).1 && !After(fl, ws[3], c).1
  {
    var w0 := Started(0, 0, []);
    var w1 := w0.(fsuid := 5, privcap := false);
    var w3 := w1.(fsuid := NONUNAME);
    var calls := [c, c, c.(uid := 7), c];
    var ws := [w0, w1, w1, w3, w3];
    assert After(fl, w0, c) == (w1, true) && After(fl, w1, c) == (w1, true);
    assert After(fl, w1, c.(uid := 7)) == (w3, false) && After(fl, w3, c) == (w3, false);
    assert AnyRun(fl, ws, calls);
  }
}
