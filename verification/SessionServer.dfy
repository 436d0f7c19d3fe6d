/** The session list as it runs: reference-counted objects in one list that is purged, prepended to and
    rebuilt in place, also while it is walked. Each method is proved to be a step of module Sessions. */
module SessionServer {
  import opened Text
  import opened Sessions

  class GssSession {
    var id: string
    var username: string
    var lastTime: int
    var permanent: bool
    var valid: bool
    var isAdmin: bool
    var refcount: int
    ghost var held: int

    ghost function View(): Session
      reads this
    {
      Session(id, username, lastTime, permanent, valid, isAdmin, refcount, held)
    }

    constructor (username: string, id: string, now: int)
      ensures View() == NewSession(username, id, now)
    {
      this.username, this.id, lastTime := username, id, now;
      permanent, valid, isAdmin, refcount, held := false, true, false, 1, 0;
    }

    /** A caller gives back what a lookup handed out. */
    method Unref()
      modifies this
      ensures View() == old(View()).(refs := old(View()).refs - 1, held := old(View()).held - 1)
    {
      refcount := refcount - 1;
      held := held - 1;
    }
  }

  ghost function Views(list: seq<GssSession>): seq<Session>
    reads list
  {
    seq(|list|, i requires 0 <= i < |list| reads list => list[i].View())
  }

  lemma ViewsAt(list: seq<GssSession>, i: nat)
    requires i < |list|
    ensures i < |Views(list)| == |list| && Views(list)[i] == list[i].View()
  {
  }

  lemma ViewsLength(list: seq<GssSession>)
    ensures |Views(list)| == |list|
  {
  }

  lemma NoIds()
    ensures PermanentIds([]) == [] && Others([]) == [] && Terminated([], ' ') == ""
  {
  }

  function Shifted(hit: Option<nat>, i: nat): Option<nat> {
    if hit.Some? then Some(hit.value + i) else None
  }

  /** The world when a lookup has passed front and comes to tail, and where it will stop. */
  function Passing(front: seq<Session>, tail: seq<Session>, gone: seq<Session>, id: string, now: int)
    : (World, Option<nat>)
  {
    (World(front + Looked(tail, id, now).0, gone + Purged(tail, id, now)), Shifted(Looked(tail, id, now).1, |front|))
  }

  /** One step of the walk changes nothing of what it will come to. */
  lemma PassingStep(front: seq<Session>, tail: seq<Session>, gone: seq<Session>, id: string, now: int)
    requires tail != []
    ensures
      var s, whole := tail[0], Passing(front, tail, gone, id, now);
      if !StillValid(s, now) then whole == Passing(front, tail[1..], gone + [Dismissed(s)], id, now)
      else if s.id == id then whole == (World(front + tail, gone), Some(|front|))
      else whole == Passing(front + [s], tail[1..], gone, id, now)
  {
    hide StillValid, Dismissed;
    var s, more := tail[0], Purged(tail[1..], id, now);
    assert gone + ([Dismissed(s)] + more) == gone + [Dismissed(s)] + more;
    assert front + ([s] + Looked(tail[1..], id, now).0) == front + [s] + Looked(tail[1..], id, now).0;
    assert gone + [] == gone;
  }

  lemma PassingEnds(front: seq<Session>, gone: seq<Session>, id: string, now: int)
    ensures Passing(front, [], gone, id, now) == (World(front, gone), None)
  {
    assert front + [] == front && gone + [] == gone;
  }

  lemma PassingStarts(w: World, id: string, now: int)
    ensures Passing([], w.list, w.gone, id, now) == (Walked(w, id, now), Looked(w.list, id, now).1)
  {
    hide Looked;
    assert [] + Looked(w.list, id, now).0 == Looked(w.list, id, now).0;
  }

  /** The world when the permanent sessions before tail are out. */
  function Dropping(front: seq<Session>, tail: seq<Session>, gone: seq<Session>): World {
    World(front + Others(tail), gone + PermanentsDismissed(tail))
  }

  lemma DroppingStep(front: seq<Session>, tail: seq<Session>, gone: seq<Session>)
    requires tail != []
    ensures
      var s := tail[0];
      Dropping(front, tail, gone) ==
        if s.permanent then Dropping(front, tail[1..], gone + [Dismissed(s)])
        else Dropping(front + [s], tail[1..], gone)
  {
    hide Dismissed;
    var s, more := tail[0], PermanentsDismissed(tail[1..]);
    assert gone + ([Dismissed(s)] + more) == gone + [Dismissed(s)] + more;
    assert front + ([s] + Others(tail[1..])) == front + [s] + Others(tail[1..]);
    assert front + ([] + Others(tail[1..])) == front + Others(tail[1..]) && gone + ([] + more) == gone + more;
  }

  lemma DroppingStarts(w: World)
    ensures Dropping([], w.list, w.gone) == World(Others(w.list), w.gone + PermanentsDismissed(w.list))
  {
    assert [] + Others(w.list) == Others(w.list);
  }

  lemma DroppingEnds(front: seq<Session>, gone: seq<Session>)
    ensures Dropping(front, [], gone) == World(front, gone)
  {
    assert front + [] == front && gone + [] == gone;
  }

  /** A walk takes sessions out of the list and adds none. */
  ghost predicate Within(list: seq<GssSession>, gone: seq<GssSession>, was: seq<GssSession>, before: seq<GssSession>) {
    && (forall s :: s in list ==> s in was)
    && (forall s :: s in gone ==> s in was || s in before)
  }

  lemma WithinItself(list: seq<GssSession>, gone: seq<GssSession>)
    ensures Within(list, gone, list, gone)
  {
  }

  lemma WithinWithout(list: seq<GssSession>, gone: seq<GssSession>, was: seq<GssSession>, before: seq<GssSession>,
                      i: nat)
    requires i < |list| && Within(list, gone, was, before)
    ensures list[i] in was && Within(list[..i] + list[i + 1..], gone + [list[i]], was, before)
  {
    assert list[i] in list;
    forall s | s in list[..i] + list[i + 1..] ensures s in was {
      assert s in list;
    }
  }

  /** The global list. It holds one reference to each of its sessions. */
  class SessionList {
    var sessions: seq<GssSession>
    ghost var gone: seq<GssSession>   // those that left the list

    ghost function State(): World
      reads this, sessions, gone
    {
      World(Views(sessions), Views(gone))
    }

    ghost predicate Valid()
      reads this
    {
      && (forall i, j :: 0 <= i < j < |sessions| ==> sessions[i] != sessions[j])
      && (forall i, j :: 0 <= i < j < |gone| ==> gone[i] != gone[j])
      && (forall i, j :: 0 <= i < |sessions| && 0 <= j < |gone| ==> sessions[i] != gone[j])
    }

    constructor ()
      ensures State() == EMPTY && sessions == [] && gone == [] && Valid()
    {
      sessions, gone := [], [];
    }

    /** The session at position i is marked, unlinked and released; the walk goes on at the same position. */
    method InvalidateAt(i: nat)
      requires Valid() && i < |sessions| && |Views(sessions)| == |sessions|
      modifies this, sessions[i]
      ensures Valid() && sessions == old(sessions[..i] + sessions[i + 1..]) && gone == old(gone + [sessions[i]])
      ensures State() == Invalidated(old(State()), i)
    {
      var session := sessions[i];
      ghost var w := State();
      ViewsAt(sessions, i);
      session.valid := false;
      sessions := sessions[..i] + sessions[i + 1..];
      session.refcount := session.refcount - 1;
      gone := gone + [session];
      assert Views(sessions) == w.list[..i] + w.list[i + 1..];
      assert Views(gone) == w.gone + [Dismissed(w.list[i])];
    }

    method New(username: string, id: string, now: int) returns (session: GssSession)
      requires Valid()
      modifies this
      ensures Valid() && fresh(session) && sessions == [session] + old(sessions) && gone == old(gone)
      ensures session.View() == NewSession(username, id, now)
      ensures State() == Step(old(State()), Login(username, id, now))
    {
      hide NewSession;
      ghost var w := State();
      session := new GssSession(username, id, now);
      sessions := [session] + sessions;
      assert Views(sessions) == [session.View()] + w.list;
      assert Views(gone) == w.gone;
    }

    method AddPermanentSession(id: string, now: int)
      requires Valid()
      modifies this
      ensures Valid() && |sessions| == |old(sessions)| + 1 && fresh(sessions[0]) && sessions[1..] == old(sessions)
      ensures gone == old(gone)
      ensures State() == Step(old(State()), AddPermanent(id, now))
    {
      ghost var w := State();
      var session := New("permanent", id, now);
      session.permanent := true;
      session.isAdmin := true;
      assert Views(sessions) == [NewPermanent(id, now)] + w.list;
      assert Views(gone) == w.gone;
    }

    method RefAt(i: nat)
      requires Valid() && i < |sessions| && |Views(sessions)| == |sessions|
      modifies sessions[i]
      ensures State() == Referenced(old(State()), i)
    {
      ghost var w := State();
      ViewsAt(sessions, i);
      sessions[i].refcount := sessions[i].refcount + 1;
      sessions[i].held := sessions[i].held + 1;
      assert Views(sessions) == w.list[i := Taken(w.list[i])];
      assert Views(gone) == w.gone;
    }

    /** The walk of a lookup, with invalidation under way, up to the session looked for. */
    method Walk(id: string, now: int) returns (i: nat)
      requires Valid()
      modifies this, sessions
      ensures Valid() && i <= |sessions| && Within(sessions, gone, old(sessions), old(gone))
      ensures State() == Walked(old(State()), id, now)
      ensures Looked(old(State()).list, id, now).1 == if i < |sessions| then Some(i) else None
    {
      hide Looked, StillValid, Views, Valid, Purged, Walked, Passing, Dismissed, Within;
      ghost var w, was, goneBefore := State(), sessions, gone;
      ghost var front, tail := [], Views(sessions);
      PassingStarts(w, id, now);
      WithinItself(sessions, gone);
      assert [] + tail == tail;
      i := 0;
      while i < |sessions|
        invariant Valid() && Within(sessions, gone, was, goneBefore)
        invariant i == |front| && i <= |sessions| && Views(sessions) == front + tail
        invariant Passing(front, tail, Views(gone), id, now) == (Walked(w, id, now), Looked(w.list, id, now).1)
        decreases |sessions| - i
      {
        var session := sessions[i];
        ViewsAt(sessions, i);
        PassingStep(front, tail, Views(gone), id, now);
        WithinWithout(sessions, gone, was, goneBefore, i);
        var valid := StillValidNow(session, now);
        if !valid {
          InvalidateAt(i);
        } else if session.id == id {
          return;
        } else {
          front := front + [tail[0]];
          i := i + 1;
        }
        tail := tail[1..];
      }
      ViewsLength(sessions);
      PassingEnds(front, Views(gone), id, now);
      assert tail == [] && front + [] == front;
    }

    /** The session found gets a reference, and only what left the list lost one. */
    method Lookup(id: string, now: int) returns (hit: Option<GssSession>)
      requires Valid()
      modifies this, sessions
      ensures Valid() && State() == Step(old(State()), Find(id, now, Use))
      ensures
        var k := Looked(old(State()).list, id, now).1;
        hit == if k.Some? && k.value < |sessions| then Some(sessions[k.value]) else None
    {
      hide Looked, Views, Walked, Referenced;
      var i := Walk(id, now);
      ViewsLength(sessions);
      if i == |sessions| {
        return None;
      }
      assert sessions[i] in sessions;
      RefAt(i);
      return Some(sessions[i]);
    }

    /** A logout, which spares permanent sessions, or a removal: both end what a lookup has just found. */
    method LookupAndEnd(id: string, now: int, purpose: Purpose)
      requires Valid()
      modifies this, sessions
      ensures Valid() && State() == Step(old(State()), Find(id, now, purpose))
    {
      hide Looked, Views, Walked, Referenced, Invalidated;
      var i := Walk(id, now);
      ViewsLength(sessions);
      if i == |sessions| {
        return;
      }
      assert sessions[i] in sessions;
      RefAt(i);
      ViewsLength(sessions);
      ViewsAt(sessions, i);
      if purpose == Remove || (purpose == Logout && !sessions[i].permanent) {
        InvalidateAt(i);
      }
    }

    /** A caller gives back a reference to the session at position k of the list, or of those gone. */
    method Unref(session: GssSession, ghost k: nat, ghost listed: bool)
      requires Valid() && session.held > 0
      requires k < |if listed then sessions else gone| && (if listed then sessions else gone)[k] == session
      modifies session
      ensures State() == Step(old(State()), if listed then GiveBack(k) else GiveBackGone(k))
    {
      ghost var w := State();
      session.Unref();
      assert Views(sessions) == if listed then w.list[k := GivenBack(w.list[k])] else w.list;
      assert Views(gone) == if listed then w.gone else w.gone[k := GivenBack(w.gone[k])];
    }

    method SetPermanentSessions(s: string, now: int)
      requires Valid()
      modifies this, sessions
      ensures Valid()
      ensures State() == Step(old(State()), SetPermanent(s, now))
    {
      hide Views, Others, Split, PermanentsDismissed, Within, Valid;
      DropPermanent();
      var ids := Split(s, ' ');
      var i := 0;
      ghost var w := State();
      assert ids[0..] == ids;
      while i < |ids|
        invariant 0 <= i <= |ids| && Valid() && State().gone == w.gone
        invariant Prepended(ids[i..], State().list, now) == Prepended(ids, w.list, now)
      {
        assert ids[i..][0] == ids[i] && ids[i..][1..] == ids[i + 1..];
        AddPermanentSession(ids[i], now);
        i := i + 1;
      }
    }

    /** The first loop: permanent sessions leave the list while it is walked. */
    method DropPermanent()
      requires Valid()
      modifies this, sessions
      ensures Valid() && Within(sessions, gone, old(sessions), old(gone))
      ensures State() == World(Others(old(State()).list), old(State()).gone + PermanentsDismissed(old(State()).list))
    {
      hide Others, Views, PermanentsDismissed, Dismissed, Within, Valid, Dropping;
      ghost var w, was, goneBefore := State(), sessions, gone;
      ghost var front, tail := [], Views(sessions);
      DroppingStarts(w);
      WithinItself(sessions, gone);
      assert [] + tail == tail;
      var i := 0;
      while i < |sessions|
        invariant Valid() && Within(sessions, gone, was, goneBefore)
        invariant i == |front| && i <= |sessions| && Views(sessions) == front + tail
        invariant Dropping(front, tail, Views(gone)) == World(Others(w.list), w.gone + PermanentsDismissed(w.list))
        decreases |sessions| - i
      {
        var session := sessions[i];
        ViewsAt(sessions, i);
        DroppingStep(front, tail, Views(gone));
        WithinWithout(sessions, gone, was, goneBefore, i);
        if session.permanent {
          InvalidateAt(i);
        } else {
          front := front + [tail[0]];
          i := i + 1;
        }
        tail := tail[1..];
      }
      ViewsLength(sessions);
      DroppingEnds(front, Views(gone));
      assert tail == [] && front + [] == front;
    }

    method GetPermanentSessions() returns (s: string)
      ensures s == Printed(Views(sessions))
    {
      hide Views, PermanentIds, Terminated;
      s := "";
      var i := 0;
      ghost var all := Views(sessions);
      ViewsLength(sessions);
      assert all[0..] == all && "" + Terminated(PermanentIds(all), ' ') == Terminated(PermanentIds(all), ' ');
      while i < |sessions|
        invariant 0 <= i <= |sessions|
        invariant s + Terminated(PermanentIds(all[i..]), ' ') == Terminated(PermanentIds(all), ' ')
      {
        var session := sessions[i];
        ViewsAt(sessions, i);
        PrintStep(all, i, s);
        if session.permanent {
          s := s + (session.id + " ");
        }
        i := i + 1;
      }
      NoIds();
      assert all[i..] == [] && s + "" == s;
      s := DropLast(s);
    }

    method StillValidNow(session: GssSession, now: int) returns (valid: bool)
      ensures valid == StillValid(session.View(), now)
    {
      if !session.permanent && session.lastTime + SESSION_TIMEOUT < now {
        return false;
      }
      return session.valid;
    }
  }
}
