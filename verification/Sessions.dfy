/** The session list: lookups purge what has expired while they walk, and the permanent sessions are
    printed and replaced as one string. */
module Sessions {
  import opened Text

  const SESSION_TIMEOUT := 3600

  datatype Option<+T> = None | Some(value: T)

  /** refs is the reference count. held, how many references lookups have handed out that were not given
      back, records history; no step reads it. */
  datatype Session = Session(
    id: string, username: string, lastTime: int, permanent: bool, valid: bool, isAdmin: bool, refs: int, held: int)

  predicate StillValid(s: Session, now: int) {
    if !s.permanent && s.lastTime + SESSION_TIMEOUT < now then false else s.valid
  }

  // ---------------------------------------------------------------- lookup

  /** The list after a lookup, and the position of the session found in it. */
  function Looked(list: seq<Session>, id: string, now: int): (r: (seq<Session>, Option<nat>))
    ensures r.1.Some? ==> r.1.value < |r.0|
  {
    if list == [] then ([], None)
    else if !StillValid(list[0], now) then Looked(list[1..], id, now)
    else if list[0].id == id then (list, Some(0))
    else
      var (rest, hit) := Looked(list[1..], id, now);
      ([list[0]] + rest, if hit.Some? then Some(hit.value + 1) else None)
  }

  function Valids(list: seq<Session>, now: int): seq<Session> {
    if list == [] then []
    else (if StillValid(list[0], now) then [list[0]] else []) + Valids(list[1..], now)
  }

  /** after and hit are what a lookup in list leaves; m is where in the list the hit was. */
  ghost predicate FoundFirst(list: seq<Session>, after: seq<Session>, hit: Option<nat>, m: nat, id: string, now: int) {
    match hit
    case None =>
      && after == Valids(list, now)
      && forall s :: s in after ==> s.id != id
    case Some(k) =>
      && k < |after| && StillValid(after[k], now) && after[k].id == id
      && (forall i :: 0 <= i < k ==> after[i].id != id)
      && m < |list| && list[m..] == after[k..] && after[..k] == Valids(list[..m], now)
  }

  /** A lookup finds the first valid session with that id, and there is none exactly if it finds nothing.
      Up to the hit, where position m of the old list was, all invalid sessions are gone and the valid ones
      are in place; behind it nothing changed. */
  lemma {:induction false} LookupExact(list: seq<Session>, id: string, now: int) returns (m: nat)
    ensures FoundFirst(list, Looked(list, id, now).0, Looked(list, id, now).1, m, id, now)
  {
    hide StillValid, FoundFirst;
    m := 0;
    if list == [] {
      NoneFound(id, now);
    } else if StillValid(list[0], now) && list[0].id == id {
      FoundAtFront(list, id, now);
    } else {
      var later := LookupExact(list[1..], id, now);
      m := later + 1;
      var (rest, hit) := Looked(list[1..], id, now);
      if StillValid(list[0], now) {
        FoundBehind(list, rest, hit, later, id, now);
      } else {
        FoundWithout(list, rest, hit, later, id, now);
      }
    }
  }

  lemma NoneFound(id: string, now: int)
    ensures FoundFirst([], [], None, 0, id, now)
  {
  }

  lemma FoundAtFront(list: seq<Session>, id: string, now: int)
    requires list != [] && StillValid(list[0], now) && list[0].id == id
    ensures FoundFirst(list, list, Some(0), 0, id, now)
  {
    assert list[0..] == list && list[..0] == [];
  }

  lemma FoundBehind(list: seq<Session>, rest: seq<Session>, hit: Option<nat>, m: nat, id: string, now: int)
    requires list != [] && StillValid(list[0], now) && list[0].id != id && FoundFirst(list[1..], rest, hit, m, id, now)
    ensures FoundFirst(list, [list[0]] + rest, if hit.Some? then Some(hit.value + 1) else None, m + 1, id, now)
  {
    hide StillValid, Valids;
    ValidsStep(list, now);
    if hit.Some? {
      var k := hit.value;
      var both := [list[0]] + rest;
      assert list[m + 1..] == list[1..][m..] && both[k + 1..] == rest[k..];
      assert list[..m + 1][1..] == list[1..][..m] && both[..k + 1] == [list[0]] + rest[..k];
      ValidsStep(list[..m + 1], now);
    }
  }

  lemma FoundWithout(list: seq<Session>, rest: seq<Session>, hit: Option<nat>, m: nat, id: string, now: int)
    requires list != [] && !StillValid(list[0], now) && FoundFirst(list[1..], rest, hit, m, id, now)
    ensures FoundFirst(list, rest, hit, m + 1, id, now)
  {
    hide StillValid, Valids;
    ValidsStep(list, now);
    if hit.Some? {
      assert list[m + 1..] == list[1..][m..];
      assert list[..m + 1][1..] == list[1..][..m];
      ValidsStep(list[..m + 1], now);
    }
  }

  lemma ValidsStep(list: seq<Session>, now: int)
    requires list != []
    ensures
      var rest := Valids(list[1..], now);
      Valids(list, now) == if StillValid(list[0], now) then [list[0]] + rest else rest
  {
  }

  // ---------------------------------------------------------------- permanent sessions

  function PermanentIds(list: seq<Session>): seq<string> {
    if list == [] then []
    else (if list[0].permanent then [list[0].id] else []) + PermanentIds(list[1..])
  }

  function Others(list: seq<Session>): seq<Session> {
    if list == [] then []
    else (if list[0].permanent then [] else [list[0]]) + Others(list[1..])
  }

  function NewPermanent(id: string, now: int): Session {
    Session(id, "permanent", now, true, true, true, 1, 0)
  }

  /** Each id's session is put in front of the list. */
  function Prepended(ids: seq<string>, list: seq<Session>, now: int): seq<Session> {
    if ids == [] then list else Prepended(ids[1..], [NewPermanent(ids[0], now)] + list, now)
  }

  function Printed(list: seq<Session>): string {
    DropLast(Terminated(PermanentIds(list), ' '))
  }

  function Replaced(list: seq<Session>, s: string, now: int): seq<Session> {
    Prepended(Split(s, ' '), Others(list), now)
  }

  function Reverse<T>(s: seq<T>): seq<T> {
    if s == [] then [] else Reverse(s[1..]) + [s[0]]
  }

  lemma {:induction false} ReverseAppend<T>(a: seq<T>, b: seq<T>)
    ensures Reverse(a + b) == Reverse(b) + Reverse(a)
  {
    if a == [] {
      assert a + b == b;
    } else {
      assert (a + b)[1..] == a[1..] + b;
      ReverseAppend(a[1..], b);
    }
  }

  lemma {:induction false} ReverseTwice<T>(s: seq<T>)
    ensures Reverse(Reverse(s)) == s
  {
    if s != [] {
      ReverseTwice(s[1..]);
      ReverseAppend(Reverse(s[1..]), [s[0]]);
      assert Reverse([s[0]]) == [s[0]];
      assert [s[0]] + s[1..] == s;
    }
  }

  lemma {:induction false} ReversePermutes<T>(s: seq<T>)
    ensures multiset(Reverse(s)) == multiset(s) && |Reverse(s)| == |s|
  {
    if s != [] {
      ReversePermutes(s[1..]);
      assert [s[0]] + s[1..] == s;
    }
  }

  lemma OthersStep(list: seq<Session>, i: nat)
    requires i < |list|
    ensures Others(list[i..]) == if list[i].permanent then Others(list[i + 1..]) else [list[i]] + Others(list[i + 1..])
    ensures PermanentIds(list[i..]) ==
              if list[i].permanent then [list[i].id] + PermanentIds(list[i + 1..]) else PermanentIds(list[i + 1..])
  {
    assert list[i..][1..] == list[i + 1..];
  }

  lemma PrintStep(list: seq<Session>, i: nat, s: string)
    requires i < |list|
    ensures
      var rest := Terminated(PermanentIds(list[i + 1..]), ' ');
      s + Terminated(PermanentIds(list[i..]), ' ') ==
        if list[i].permanent then s + (list[i].id + " ") + rest else s + rest
  {
    OthersStep(list, i);
    if list[i].permanent {
      var ids := PermanentIds(list[i + 1..]);
      assert ([list[i].id] + ids)[1..] == ids;
    }
  }

  lemma {:induction false} OthersHaveNone(list: seq<Session>)
    ensures PermanentIds(Others(list)) == [] && Others(Others(list)) == Others(list)
  {
    if list != [] {
      OthersHaveNone(list[1..]);
      OthersStep(list, 0);
      assert list[0..] == list;
      if !list[0].permanent {
        assert Others(list)[1..] == Others(list[1..]);
      }
    }
  }

  lemma {:induction false} PrependedShape(ids: seq<string>, list: seq<Session>, now: int)
    ensures PermanentIds(Prepended(ids, list, now)) == Reverse(ids) + PermanentIds(list)
    ensures Others(Prepended(ids, list, now)) == Others(list)
    decreases |ids|
  {
    if ids != [] {
      var more := [NewPermanent(ids[0], now)] + list;
      assert more[1..] == list;
      PrependedShape(ids[1..], more, now);
    }
  }

  lemma ReplacedShape(list: seq<Session>, s: string, now: int)
    ensures PermanentIds(Replaced(list, s, now)) == Reverse(Split(s, ' '))
    ensures Others(Replaced(list, s, now)) == Others(list)
  {
    OthersHaveNone(list);
    PrependedShape(Split(s, ' '), Others(list), now);
  }

  /** The ids print and split back into themselves: none has a space, and there is not just an empty one. */
  predicate Printable(ids: seq<string>) {
    (forall i :: 0 <= i < |ids| ==> ' ' !in ids[i]) && ids != [""]
  }

  lemma SplitPrinted(ids: seq<string>)
    ensures
      var again := Split(DropLast(Terminated(ids, ' ')), ' ');
      && (again == ids <==> Printable(ids))
      && (multiset(again) == multiset(ids) <==> Printable(ids))
  {
    var again := Split(DropLast(Terminated(ids, ' ')), ' ');
    if Printable(ids) {
      SplitOfTerminated(ids, ' ');
    } else if ids == [""] {
      assert Terminated([""], ' ') == " ";
      assert |multiset(again)| == 0 && |multiset(ids)| == 1;
    } else {
      PiecesClean(DropLast(Terminated(ids, ' ')), ' ');
      var i :| 0 <= i < |ids| && ' ' in ids[i];
      assert ids[i] in multiset(ids) && ids[i] !in again;
    }
  }

  /** Storing back the printed permanent sessions reverses their order, which keeps their multiset, and
      leaves all other sessions as they were; and it does so exactly when the ids are printable. */
  lemma StoreBack(list: seq<Session>, now: int)
    ensures
      var after := Replaced(list, Printed(list), now);
      && Others(after) == Others(list)
      && (PermanentIds(after) == Reverse(PermanentIds(list)) <==> Printable(PermanentIds(list)))
      && (multiset(PermanentIds(after)) == multiset(PermanentIds(list)) <==> Printable(PermanentIds(list)))
  {
    var ids := PermanentIds(list);
    ReplacedShape(list, Printed(list), now);
    SplitPrinted(ids);
    ReversePermutes(Split(Printed(list), ' '));
    ReverseTwice(ids);
    ReverseTwice(Split(Printed(list), ' '));
  }

  /** Twice restores the order. */
  lemma StoreBackTwice(list: seq<Session>, now: int, later: int)
    requires Printable(PermanentIds(list))
    ensures
      var after := Replaced(list, Printed(list), now);
      var again := Replaced(after, Printed(after), later);
      PermanentIds(again) == PermanentIds(list) && Others(again) == Others(list)
  {
    var ids := PermanentIds(list);
    var after := Replaced(list, Printed(list), now);
    StoreBack(list, now);
    ReverseTwice(ids);
    ReversePrintable(ids);
    StoreBack(after, later);
  }

  lemma ReversePrintable(ids: seq<string>)
    requires Printable(ids)
    ensures Printable(Reverse(ids))
  {
    var r := Reverse(ids);
    ReversePermutes(ids);
    forall i | 0 <= i < |r| ensures ' ' !in r[i] {
      assert r[i] in multiset(r);
      assert r[i] in ids;
    }
    ReverseTwice(ids);
    assert Reverse([""]) == [""];
  }

  // ---------------------------------------------------------------- runs

  /** A session that leaves the list is marked and loses the list's reference. */
  function Dismissed(s: Session): Session {
    s.(valid := false, refs := s.refs - 1)
  }

  /** The session found gains a reference for the caller. */
  function Taken(s: Session): Session {
    s.(refs := s.refs + 1, held := s.held + 1)
  }

  function GivenBack(s: Session): Session {
    s.(refs := s.refs - 1, held := s.held - 1)
  }

  /** What a lookup throws out on its way. */
  function Purged(list: seq<Session>, id: string, now: int): seq<Session> {
    if list == [] then []
    else if !StillValid(list[0], now) then [Dismissed(list[0])] + Purged(list[1..], id, now)
    else if list[0].id == id then []
    else Purged(list[1..], id, now)
  }

  function PermanentsDismissed(list: seq<Session>): seq<Session> {
    if list == [] then []
    else (if list[0].permanent then [Dismissed(list[0])] else []) + PermanentsDismissed(list[1..])
  }

  /** The list, and the sessions that have left it. Those whose count is zero have been freed. */
  datatype World = World(list: seq<Session>, gone: seq<Session>)

  /** What a request looks a session up for: to use it, to log out (permanent sessions stay), or to remove it,
      which a request that is not encrypted does to its own session. */
  datatype Purpose = Use | Logout | Remove

  datatype Event =
    | Login(username: string, id: string, now: int)
    | Find(id: string, now: int, purpose: Purpose)
    | AddPermanent(id: string, now: int)
    | SetPermanent(ids: string, now: int)
    | GiveBack(position: nat)
    | GiveBackGone(position: nat)

  function Invalidated(w: World, k: nat): World
    requires k < |w.list|
  {
    World(w.list[..k] + w.list[k + 1..], w.gone + [Dismissed(w.list[k])])
  }

  /** After the walk of a lookup. */
  function Walked(w: World, id: string, now: int): World {
    World(Looked(w.list, id, now).0, w.gone + Purged(w.list, id, now))
  }

  function Referenced(w: World, k: nat): World
    requires k < |w.list|
  {
    w.(list := w.list[k := Taken(w.list[k])])
  }

  predicate Ends(purpose: Purpose, s: Session) {
    purpose == Remove || (purpose == Logout && !s.permanent)
  }

  function FindStep(w: World, id: string, now: int, purpose: Purpose): World {
    var hit := Looked(w.list, id, now).1;
    if hit.None? then Walked(w, id, now)
    else
      var v := Referenced(Walked(w, id, now), hit.value);
      if Ends(purpose, v.list[hit.value]) then Invalidated(v, hit.value) else v
  }

  /** Only who holds a reference gives one back. */
  predicate Enabled(w: World, e: Event) {
    match e
    case GiveBack(k) => k < |w.list| && w.list[k].held > 0
    case GiveBackGone(k) => k < |w.gone| && w.gone[k].held > 0
    case _ => true
  }

  function NewSession(username: string, id: string, now: int): Session {
    Session(id, username, now, false, true, false, 1, 0)
  }

  function Step(w: World, e: Event): World {
    if !Enabled(w, e) then w
    else match e
      case Login(username, id, now) => w.(list := [NewSession(username, id, now)] + w.list)
      case Find(id, now, purpose) => FindStep(w, id, now, purpose)
      case AddPermanent(id, now) => w.(list := [NewPermanent(id, now)] + w.list)
      case SetPermanent(ids, now) =>
        World(Replaced(w.list, ids, now), w.gone + PermanentsDismissed(w.list))
      case GiveBack(k) => w.(list := w.list[k := GivenBack(w.list[k])])
      case GiveBackGone(k) => w.(gone := w.gone[k := GivenBack(w.gone[k])])
  }

  function Run(w: World, events: seq<Event>): World
    decreases |events|
  {
    if events == [] then w else Step(Run(w, events[..|events| - 1]), events[|events| - 1])
  }

  const EMPTY := World([], [])

  /** Setting the permanent sessions: the new ones are those of the string, the last one first; all that were
      permanent before are dismissed, and the others stay in order. */
  lemma SetPermanentExact(w: World, ids: string, now: int)
    ensures
      var v := Step(w, SetPermanent(ids, now));
      && PermanentIds(v.list) == Reverse(Split(ids, ' ')) && Others(v.list) == Others(w.list)
      && v.gone == w.gone + PermanentsDismissed(w.list)
      && (forall s :: s in v.list && s.permanent ==> s == NewPermanent(s.id, now))
  {
    hide Split, Replaced, Reverse, PermanentIds, Others, PermanentsDismissed, FindStep;
    ReplacedShape(w.list, ids, now);
    ReplacedFrom(w.list, ids, now);
  }

  /** Stored back through the run's own event, the printed ids are reversed exactly if they are printable. */
  lemma StoreBackStep(w: World, now: int)
    ensures
      var ids := PermanentIds(Step(w, SetPermanent(Printed(w.list), now)).list);
      && (ids == Reverse(PermanentIds(w.list)) <==> Printable(PermanentIds(w.list)))
      && (multiset(ids) == multiset(PermanentIds(w.list)) <==> Printable(PermanentIds(w.list)))
  {
    hide Replaced, Printed, Reverse, Printable, PermanentIds, Others, PermanentsDismissed, FindStep;
    StoreBack(w.list, now);
  }

  // ---------------------------------------------------------------- references

  /** The list holds one reference to each of its sessions, and all of them are valid; the ones that left
      are not. Besides these there are just the references that callers hold. */
  ghost predicate Counted(w: World) {
    && (forall s :: s in w.list ==> s.valid && s.refs == 1 + s.held && s.held >= 0)
    && (forall s :: s in w.gone ==> !s.valid && s.refs == s.held && s.held >= 0)
  }

  /** A lookup keeps what is still valid and dismisses the rest. */
  lemma {:induction false} LookedFrom(list: seq<Session>, id: string, now: int)
    ensures forall s :: s in Looked(list, id, now).0 ==> s in list
    ensures forall s :: s in list && StillValid(s, now) ==> s in Looked(list, id, now).0
    ensures forall s :: s in Purged(list, id, now) ==> exists t :: t in list && !StillValid(t, now) && s == Dismissed(t)
  {
    hide StillValid, Dismissed;
    if list != [] {
      LookedFrom(list[1..], id, now);
      assert forall s :: s in list <==> s == list[0] || s in list[1..];
    }
  }

  lemma {:induction false} PermanentsFrom(list: seq<Session>)
    ensures forall s :: s in PermanentsDismissed(list) ==> exists t :: t in list && t.permanent && s == Dismissed(t)
    ensures forall s :: s in Others(list) <==> s in list && !s.permanent
  {
    hide Dismissed;
    if list != [] {
      PermanentsFrom(list[1..]);
      assert forall s :: s in list <==> s == list[0] || s in list[1..];
    }
  }

  lemma {:induction false} PrependedFrom(ids: seq<string>, list: seq<Session>, now: int)
    ensures forall s :: s in list ==> s in Prepended(ids, list, now)
    ensures forall s :: s in Prepended(ids, list, now) ==>
              s in list || exists id :: id in ids && s == NewPermanent(id, now)
    decreases |ids|
  {
    if ids != [] {
      PrependedFrom(ids[1..], [NewPermanent(ids[0], now)] + list, now);
      assert ids[0] in ids;
    }
  }

  lemma InvalidatedCounted(w: World, k: nat)
    requires Counted(w) && k < |w.list|
    ensures Counted(Invalidated(w, k))
  {
  }

  lemma WalkedCounted(w: World, id: string, now: int)
    requires Counted(w)
    ensures Counted(Walked(w, id, now))
  {
    hide Looked, Purged, StillValid;
    LookedFrom(w.list, id, now);
  }

  lemma ReferencedCounted(w: World, k: nat)
    requires Counted(w) && k < |w.list|
    ensures Counted(Referenced(w, k))
  {
  }

  lemma StepCounted(w: World, e: Event)
    requires Counted(w)
    ensures Counted(Step(w, e))
  {
    hide Looked, Walked, Invalidated, Referenced, Replaced;
    match e
    case Login(_, _, _) =>
    case Find(id, now, purpose) =>
      hide Counted;
      WalkedCounted(w, id, now);
      var hit := Looked(w.list, id, now).1;
      if hit.Some? {
        WalkedList(w, id, now);
        ReferencedCounted(Walked(w, id, now), hit.value);
        var v := Referenced(Walked(w, id, now), hit.value);
        if Ends(purpose, v.list[hit.value]) {
          InvalidatedCounted(v, hit.value);
        }
      }
    case AddPermanent(_, _) =>
    case SetPermanent(ids, now) =>
      PermanentsFrom(w.list);
      ReplacedFrom(w.list, ids, now);
    case GiveBack(_) =>
    case GiveBackGone(_) =>
  }

  lemma WalkedList(w: World, id: string, now: int)
    ensures Walked(w, id, now).list == Looked(w.list, id, now).0
    ensures forall k :: 0 <= k < |Walked(w, id, now).list| ==>
              |Referenced(Walked(w, id, now), k).list| == |Walked(w, id, now).list|
  {
    hide Looked;
  }

  lemma ReplacedFrom(list: seq<Session>, ids: string, now: int)
    ensures forall s :: s in Replaced(list, ids, now) ==>
              (s in list && !s.permanent) || exists id :: id in Split(ids, ' ') && s == NewPermanent(id, now)
    ensures forall s :: s in list && !s.permanent ==> s in Replaced(list, ids, now)
  {
    hide Split, Prepended, Others;
    PermanentsFrom(list);
    PrependedFrom(Split(ids, ' '), Others(list), now);
  }

  /** In every run all sessions of the list are valid and their count is one more than the references that
      lookups handed out and did not get back; of a session that left it is just those. So no session is freed
      that is listed or that anybody holds, and all others are. */
  lemma {:induction false} ReferencesBalance(events: seq<Event>)
    ensures Counted(Run(EMPTY, events))
    ensures forall s :: s in Run(EMPTY, events).list ==> s.refs >= 1
    ensures forall s :: s in Run(EMPTY, events).gone ==> (s.refs == 0 <==> s.held == 0)
  {
    hide Step;
    if events != [] {
      ReferencesBalance(events[..|events| - 1]);
      StepCounted(Run(EMPTY, events[..|events| - 1]), events[|events| - 1]);
    }
  }

  function HeldSum(list: seq<Session>): int {
    if list == [] then 0 else list[0].held + HeldSum(list[1..])
  }

  lemma {:induction false} HeldAppend(a: seq<Session>, b: seq<Session>)
    ensures HeldSum(a + b) == HeldSum(a) + HeldSum(b)
  {
    if a == [] {
      assert a + b == b;
    } else {
      assert (a + b)[1..] == a[1..] + b;
      HeldAppend(a[1..], b);
    }
  }

  lemma HeldUpdate(list: seq<Session>, k: nat, s: Session)
    requires k < |list|
    ensures HeldSum(list[k := s]) == HeldSum(list) - list[k].held + s.held
    ensures HeldSum(list[..k] + list[k + 1..]) == HeldSum(list) - list[k].held
  {
    var a, b := list[..k], list[k + 1..];
    assert list == a + ([list[k]] + b) && list[k := s] == a + ([s] + b);
    HeldAppend(a, [list[k]] + b);
    HeldAppend(a, [s] + b);
    HeldAppend(a, b);
  }

  lemma {:induction false} HeldLooked(list: seq<Session>, id: string, now: int)
    ensures HeldSum(Looked(list, id, now).0) + HeldSum(Purged(list, id, now)) == HeldSum(list)
  {
    hide StillValid;
    if list != [] {
      HeldLooked(list[1..], id, now);
      var rest := Looked(list[1..], id, now).0;
      assert ([list[0]] + rest)[1..] == rest;
      var more := Purged(list[1..], id, now);
      assert ([Dismissed(list[0])] + more)[1..] == more;
    }
  }

  lemma {:induction false} HeldOthers(list: seq<Session>)
    ensures HeldSum(Others(list)) + HeldSum(PermanentsDismissed(list)) == HeldSum(list)
  {
    if list != [] {
      HeldOthers(list[1..]);
      HeldAppend(if list[0].permanent then [] else [list[0]], Others(list[1..]));
      HeldAppend(if list[0].permanent then [Dismissed(list[0])] else [], PermanentsDismissed(list[1..]));
    }
  }

  lemma {:induction false} HeldPrepended(ids: seq<string>, list: seq<Session>, now: int)
    ensures HeldSum(Prepended(ids, list, now)) == HeldSum(list)
    decreases |ids|
  {
    if ids != [] {
      var more := [NewPermanent(ids[0], now)] + list;
      assert more[1..] == list;
      HeldPrepended(ids[1..], more, now);
    }
  }

  function HeldIn(w: World): int {
    HeldSum(w.list) + HeldSum(w.gone)
  }

  /** References that an event hands out, or takes back. */
  function HandedOut(w: World, e: Event): int {
    match e
    case Find(id, now, _) => if Looked(w.list, id, now).1.Some? then 1 else 0
    case GiveBack(_) => if Enabled(w, e) then -1 else 0
    case GiveBackGone(_) => if Enabled(w, e) then -1 else 0
    case _ => 0
  }

  lemma WalkedHeld(w: World, id: string, now: int)
    ensures HeldIn(Walked(w, id, now)) == HeldIn(w)
  {
    hide Looked, Purged, HeldSum;
    HeldLooked(w.list, id, now);
    HeldAppend(w.gone, Purged(w.list, id, now));
  }

  lemma ReferencedHeld(w: World, k: nat)
    requires k < |w.list|
    ensures HeldIn(Referenced(w, k)) == HeldIn(w) + 1
  {
    hide HeldSum;
    HeldUpdate(w.list, k, Taken(w.list[k]));
  }

  lemma InvalidatedHeld(w: World, k: nat)
    requires k < |w.list|
    ensures HeldIn(Invalidated(w, k)) == HeldIn(w)
  {
    HeldUpdate(w.list, k, w.list[k]);
    HeldAppend(w.gone, [Dismissed(w.list[k])]);
  }

  lemma StepHeld(w: World, e: Event)
    ensures HeldIn(Step(w, e)) == HeldIn(w) + HandedOut(w, e)
  {
    hide Looked, Walked, Invalidated, Referenced, Split, Others, Prepended;
    match e
    case Login(username, id, now) => HeldAppend([NewSession(username, id, now)], w.list);
    case Find(id, now, purpose) =>
      hide HeldIn;
      WalkedHeld(w, id, now);
      WalkedList(w, id, now);
      var hit := Looked(w.list, id, now).1;
      if hit.Some? {
        var v := Referenced(Walked(w, id, now), hit.value);
        ReferencedHeld(Walked(w, id, now), hit.value);
        if Ends(purpose, v.list[hit.value]) {
          InvalidatedHeld(v, hit.value);
        }
      }
    case AddPermanent(id, now) => HeldAppend([NewPermanent(id, now)], w.list);
    case SetPermanent(ids, now) =>
      HeldOthers(w.list);
      HeldPrepended(Split(ids, ' '), Others(w.list), now);
      HeldAppend(w.gone, PermanentsDismissed(w.list));
    case GiveBack(k) =>
      if k < |w.list| {
        HeldUpdate(w.list, k, GivenBack(w.list[k]));
      }
    case GiveBackGone(k) =>
      if k < |w.gone| {
        HeldUpdate(w.gone, k, GivenBack(w.gone[k]));
      }
  }

  /** Lookups of the run that found a session, less the references given back. */
  function Outstanding(events: seq<Event>): int
    decreases |events|
  {
    if events == [] then 0
    else
      var before := events[..|events| - 1];
      Outstanding(before) + HandedOut(Run(EMPTY, before), events[|events| - 1])
  }

  /** No reference appears or vanishes: over all sessions, listed or gone, as many are held as lookups that
      found one handed out and did not get back. */
  lemma {:induction false} HeldAreHandedOut(events: seq<Event>)
    ensures HeldIn(Run(EMPTY, events)) == Outstanding(events)
  {
    hide Step, HandedOut;
    if events == [] {
      assert HeldIn(EMPTY) == 0;
    } else {
      HeldAreHandedOut(events[..|events| - 1]);
      StepHeld(Run(EMPTY, events[..|events| - 1]), events[|events| - 1]);
    }
  }

  lemma {:induction false} GoneStay(w: World, later: seq<Event>)
    requires forall i :: 0 <= i < |later| ==> !later[i].GiveBackGone?
    ensures w.gone <= Run(w, later).gone
    decreases |later|
  {
    hide Looked, Purged, Replaced, PermanentsDismissed;
    if later != [] {
      GoneStay(w, later[..|later| - 1]);
    }
  }

  /** A session that left the list while a reference was out is freed by giving that back and by nothing
      else: as long as nobody does, it stays allocated, whatever happens. */
  lemma NeverFreed(events: seq<Event>, later: seq<Event>, k: nat)
    requires k < |Run(EMPTY, events).gone| && Run(EMPTY, events).gone[k].held > 0
    requires forall i :: 0 <= i < |later| ==> !later[i].GiveBackGone?
    ensures
      var gone := Run(Run(EMPTY, events), later).gone;
      k < |gone| && gone[k].refs > 0
  {
    hide Run;
    ReferencesBalance(events);
    GoneStay(Run(EMPTY, events), later);
    assert Run(EMPTY, events).gone[k] in Run(EMPTY, events).gone;
  }

  // ---------------------------------------------------------------- who is found

  /** The event made this session. */
  ghost predicate MadeBy(s: Session, e: Event) {
    match e
    case Login(username, id, now) =>
      s.username == username && s.id == id && s.lastTime == now && !s.permanent && !s.isAdmin
    case AddPermanent(id, now) => s.username == "permanent" && s.permanent && s.isAdmin && s.id == id
    case SetPermanent(ids, now) =>
      s.username == "permanent" && s.permanent && s.isAdmin && s.id in Split(ids, ' ')
    case _ => false
  }

  /** The same session, but perhaps for its references. */
  predicate Same(s: Session, t: Session) {
    s.(refs := t.refs, held := t.held) == t
  }

  /** Every session of the list is one of before or was made by e. */
  ghost predicate From(s: Session, before: seq<Session>, e: Event) {
    MadeBy(s, e) || exists t :: t in before && Same(s, t)
  }

  lemma SameFrom(s: Session, t: Session, before: seq<Session>, e: Event)
    requires t in before && Same(s, t)
    ensures From(s, before, e)
  {
  }

  lemma FindFrom(w: World, id: string, now: int, purpose: Purpose)
    ensures forall s :: s in FindStep(w, id, now, purpose).list ==> exists t :: t in w.list && Same(s, t)
  {
    hide Looked, Purged, StillValid, Ends;
    LookedFrom(w.list, id, now);
    var after := Looked(w.list, id, now).0;
    forall s | s in FindStep(w, id, now, purpose).list ensures exists t :: t in w.list && Same(s, t) {
      var hit := Looked(w.list, id, now).1;
      if s in after {
        assert Same(s, s);
      } else {
        assert s == Taken(after[hit.value]);
        assert after[hit.value] in after && Same(s, after[hit.value]);
      }
    }
  }

  lemma StepFrom(w: World, e: Event)
    ensures forall s :: s in Step(w, e).list ==> From(s, w.list, e)
  {
    hide Looked, FindStep, Replaced, Split;
    forall s | s in Step(w, e).list ensures From(s, w.list, e) {
      if s in w.list {
        SameFrom(s, s, w.list, e);
      } else {
        match e
        case Login(_, _, _) =>
        case Find(id, now, purpose) => FindFrom(w, id, now, purpose);
        case AddPermanent(_, _) =>
        case SetPermanent(ids, now) => ReplacedFrom(w.list, ids, now);
        case GiveBack(k) => SameFrom(s, w.list[k], w.list, e);
        case GiveBackGone(_) =>
      }
    }
  }

  ghost predicate Made(s: Session, events: seq<Event>) {
    exists i :: 0 <= i < |events| && MadeBy(s, events[i])
  }

  lemma MadeBefore(s: Session, t: Session, events: seq<Event>)
    requires events != [] && Same(s, t) && Made(t, events[..|events| - 1])
    ensures Made(s, events)
  {
    var i :| 0 <= i < |events| - 1 && MadeBy(t, events[..|events| - 1][i]);
    assert MadeBy(s, events[i]);
  }

  lemma {:induction false} ListedAreMade(events: seq<Event>)
    ensures forall s :: s in Run(EMPTY, events).list ==> Made(s, events)
  {
    hide Step, MadeBy, Same;
    if events != [] {
      var before, e := events[..|events| - 1], events[|events| - 1];
      ListedAreMade(before);
      StepFrom(Run(EMPTY, before), e);
      forall s | s in Run(EMPTY, events).list ensures Made(s, events) {
        assert From(s, Run(EMPTY, before).list, e);
        if !MadeBy(s, e) {
          var t :| t in Run(EMPTY, before).list && Same(s, t);
          MadeBefore(s, t, events);
        }
      }
    }
  }

  lemma MadeKind(s: Session, events: seq<Event>)
    requires Made(s, events)
    ensures s.isAdmin <==> s.permanent
  {
    hide Split;
    var i :| 0 <= i < |events| && MadeBy(s, events[i]);
  }

  /** In every run the administrators among the listed sessions are exactly the permanent ones. */
  lemma AdministratorsArePermanent(events: seq<Event>)
    ensures forall s :: s in Run(EMPTY, events).list ==> (s.isAdmin <==> s.permanent)
  {
    hide Run, Made;
    ListedAreMade(events);
    forall s | s in Run(EMPTY, events).list ensures s.isAdmin <==> s.permanent {
      MadeKind(s, events);
    }
  }

  /** Whatever the run, a lookup finds only a session with that id that some login made no longer than the
      timeout ago, or that was set up as a permanent one, and that nobody ended since. */
  lemma FoundIsMade(events: seq<Event>, id: string, now: int)
    ensures
      var (after, hit) := Looked(Run(EMPTY, events).list, id, now);
      hit.Some? ==>
        var s := after[hit.value];
        && s.id == id && s.valid && Made(s, events) && (s.isAdmin <==> s.permanent)
        && (s.permanent || s.lastTime + 3600 >= now)
  {
    hide Run, Looked, Made;
    var list := Run(EMPTY, events).list;
    var m := LookupExact(list, id, now);
    LookedFrom(list, id, now);
    ListedAreMade(events);
    AdministratorsArePermanent(events);
  }

  /** The session a login made is there and can be used until the timeout. */
  ghost predicate Alive(w: World, username: string, id: string, t: int) {
    exists s :: s in w.list && Lives(s, username, id, t)
  }

  predicate Lives(s: Session, username: string, id: string, t: int) {
    s.username == username && s.id == id && s.lastTime == t && s.valid && !s.permanent
  }

  /** Not after the timeout, and no logout or removal of this id. */
  predicate Spares(e: Event, id: string, t: int) {
    e.Find? ==> e.now <= t + 3600 && (e.id == id ==> e.purpose == Use)
  }

  lemma FindSpares(w: World, e: Event, username: string, id: string, t: int)
    requires e.Find? && Alive(w, username, id, t) && Spares(e, id, t)
    ensures Alive(FindStep(w, e.id, e.now, e.purpose), username, id, t)
  {
    hide Looked, Purged;
    var s :| s in w.list && Lives(s, username, id, t);
    var after, hit := Looked(w.list, e.id, e.now).0, Looked(w.list, e.id, e.now).1;
    LookedFrom(w.list, e.id, e.now);
    var m := LookupExact(w.list, e.id, e.now);
    var i :| 0 <= i < |after| && after[i] == s;
    if hit.Some? {
      var k := hit.value;
      var v := after[k := Taken(after[k])];
      assert Lives(v[i], username, id, t);
      assert v[i] in v;
      if Ends(e.purpose, v[k]) {
        assert i != k;
        assert v[i] in v[..k] + v[k + 1..] by {
          StaysWithout(v, i, k);
        }
      }
    } else {
      assert s in after;
    }
  }

  lemma StaysWithout(list: seq<Session>, i: nat, k: nat)
    requires i < |list| && k < |list| && i != k
    ensures list[i] in list[..k] + list[k + 1..]
  {
    var rest := list[..k] + list[k + 1..];
    assert rest[if i < k then i else i - 1] == list[i];
  }

  lemma StepSpares(w: World, e: Event, username: string, id: string, t: int)
    requires Alive(w, username, id, t) && Spares(e, id, t)
    ensures Alive(Step(w, e), username, id, t)
  {
    hide FindStep, Replaced;
    var s :| s in w.list && Lives(s, username, id, t);
    match e
    case Login(_, _, _) =>
      assert s in Step(w, e).list;
    case Find(_, _, _) => FindSpares(w, e, username, id, t);
    case AddPermanent(_, _) =>
      assert s in Step(w, e).list;
    case SetPermanent(ids, now) => ReplacedFrom(w.list, ids, now);
    case GiveBack(k) =>
      var i :| 0 <= i < |w.list| && w.list[i] == s;
      if Enabled(w, e) {
        assert Step(w, e).list[i] == if i == k then GivenBack(s) else s;
        assert Lives(Step(w, e).list[i], username, id, t);
      }
    case GiveBackGone(_) =>
  }

  lemma {:induction false} RunSpares(w: World, events: seq<Event>, username: string, id: string, t: int)
    requires Alive(w, username, id, t) && forall i :: 0 <= i < |events| ==> Spares(events[i], id, t)
    ensures Alive(Run(w, events), username, id, t)
    decreases |events|
  {
    hide Step, Alive, Spares;
    if events != [] {
      RunSpares(w, events[..|events| - 1], username, id, t);
      StepSpares(Run(w, events[..|events| - 1]), events[|events| - 1], username, id, t);
    }
  }

  /** Whatever else happens, a login is found until the timeout, unless it is logged out or removed. */
  lemma LoginStays(w: World, username: string, id: string, t: int, later: seq<Event>, now: int)
    requires forall i :: 0 <= i < |later| ==> Spares(later[i], id, t)
    requires now <= t + 3600
    ensures Looked(Run(Step(w, Login(username, id, t)), later).list, id, now).1.Some?
  {
    hide Run, Looked;
    var v := Step(w, Login(username, id, t));
    assert NewSession(username, id, t) in v.list;
    assert Alive(v, username, id, t);
    RunSpares(v, later, username, id, t);
    var list := Run(v, later).list;
    var s :| s in list && Lives(s, username, id, t);
    LookedFrom(list, id, now);
    var m := LookupExact(list, id, now);
    assert s in Looked(list, id, now).0;
  }

  ghost predicate Absent(list: seq<Session>, id: string) {
    forall s :: s in list ==> s.id != id
  }

  /** The event makes no session with this id. */
  predicate MakesNone(e: Event, id: string) {
    match e
    case Login(_, other, _) => other != id
    case AddPermanent(other, _) => other != id
    case SetPermanent(ids, _) => id !in Split(ids, ' ')
    case _ => true
  }

  lemma {:induction false} RunAbsent(w: World, events: seq<Event>, id: string)
    requires Absent(w.list, id) && forall i :: 0 <= i < |events| ==> MakesNone(events[i], id)
    ensures Absent(Run(w, events).list, id)
    decreases |events|
  {
    hide Step, Split;
    if events != [] {
      var before, e := events[..|events| - 1], events[|events| - 1];
      RunAbsent(w, before, id);
      StepFrom(Run(w, before), e);
      forall s | s in Run(w, events).list ensures s.id != id {
        assert From(s, Run(w, before).list, e);
      }
    }
  }

  ghost predicate DistinctIds(list: seq<Session>) {
    forall i, j :: 0 <= i < j < |list| ==> list[i].id != list[j].id
  }

  /** What is found is ended: always by a removal, by a logout if it is not permanent, by nothing else. */
  predicate MayEnd(purpose: Purpose, list: seq<Session>, id: string, now: int) {
    var (after, hit) := Looked(list, id, now);
    match purpose
    case Use => false
    case Logout => hit.Some? ==> !after[hit.value].permanent
    case Remove => true
  }

  lemma RemoveEnds(w: World, id: string, now: int, purpose: Purpose)
    requires DistinctIds(w.list) && MayEnd(purpose, w.list, id, now)
    ensures Absent(FindStep(w, id, now, purpose).list, id)
  {
    hide Looked, Purged, Valids, StillValid;
    var after, hit := Looked(w.list, id, now).0, Looked(w.list, id, now).1;
    var m := LookupExact(w.list, id, now);
    if hit.Some? {
      var k := hit.value;
      var rest := FindStep(w, id, now, purpose).list;
      assert rest == after[..k] + after[k + 1..];
      forall i | k < i < |after| ensures after[i].id != id {
        assert after[i] == after[k..][i - k] == w.list[m + i - k];
        assert after[k] == after[k..][0] == w.list[m];
      }
    }
  }

  lemma EndedStaysAway(w: World, id: string, now: int, purpose: Purpose, later: seq<Event>, moment: int)
    requires DistinctIds(w.list) && MayEnd(purpose, w.list, id, now)
    requires forall i :: 0 <= i < |later| ==> MakesNone(later[i], id)
    ensures Looked(Run(Step(w, Find(id, now, purpose)), later).list, id, moment).1.None?
  {
    hide Run, Looked, FindStep, MayEnd;
    var v := Step(w, Find(id, now, purpose));
    RemoveEnds(w, id, now, purpose);
    RunAbsent(v, later, id);
    LookedFrom(Run(v, later).list, id, moment);
    var m := LookupExact(Run(v, later).list, id, moment);
  }

  /** After a logout the id is not found again, unless it is made anew; if the session was not permanent. */
  lemma LogoutEnds(w: World, id: string, now: int, later: seq<Event>, moment: int)
    requires DistinctIds(w.list)
    requires
      var (after, hit) := Looked(w.list, id, now);
      hit.Some? ==> !after[hit.value].permanent
    requires forall i :: 0 <= i < |later| ==> MakesNone(later[i], id)
    ensures Looked(Run(Step(w, Find(id, now, Logout)), later).list, id, moment).1.None?
  {
    hide Run, Looked, Step;
    EndedStaysAway(w, id, now, Logout, later, moment);
  }

  /** After a removal it is not, permanent or not. */
  lemma RemovalEnds(w: World, id: string, now: int, later: seq<Event>, moment: int)
    requires DistinctIds(w.list)
    requires forall i :: 0 <= i < |later| ==> MakesNone(later[i], id)
    ensures Looked(Run(Step(w, Find(id, now, Remove)), later).list, id, moment).1.None?
  {
    hide Run, Looked, Step;
    EndedStaysAway(w, id, now, Remove, later, moment);
  }

  /** Using a session, or logging out with a permanent one, ends nothing: the list is that of the lookup, and
      the session found, and only it, has one reference more. */
  lemma UseKeeps(w: World, id: string, now: int, purpose: Purpose)
    requires
      var (after, hit) := Looked(w.list, id, now);
      purpose == Use || (purpose == Logout && hit.Some? && after[hit.value].permanent)
    ensures
      var (after, hit) := Looked(w.list, id, now);
      var v := Step(w, Find(id, now, purpose));
      && |v.list| == |after|
      && (forall i :: 0 <= i < |after| && hit != Some(i) ==> v.list[i] == after[i])
      && (hit.Some? ==>
            var s, t := v.list[hit.value], after[hit.value];
            s.id == id && s.valid && Same(s, t) && s.refs == t.refs + 1 && s.held == t.held + 1)
  {
    hide Looked, Purged, Valids;
    var m := LookupExact(w.list, id, now);
  }

  /** A permanent session of the list. */
  ghost predicate Lasting(w: World, id: string) {
    exists s :: s in w.list && Lasts(s, id)
  }

  predicate Lasts(s: Session, id: string) {
    s.id == id && s.valid && s.permanent
  }

  /** No removal of this id, and no new set of permanent sessions. */
  predicate SparesPermanent(e: Event, id: string) {
    !e.SetPermanent? && (e.Find? && e.id == id ==> e.purpose != Remove)
  }

  lemma FindSparesPermanent(w: World, e: Event, id: string)
    requires e.Find? && Lasting(w, id) && SparesPermanent(e, id)
    ensures Lasting(FindStep(w, e.id, e.now, e.purpose), id)
  {
    hide Looked, Purged;
    var s :| s in w.list && Lasts(s, id);
    var after, hit := Looked(w.list, e.id, e.now).0, Looked(w.list, e.id, e.now).1;
    LookedFrom(w.list, e.id, e.now);
    var m := LookupExact(w.list, e.id, e.now);
    var i :| 0 <= i < |after| && after[i] == s;
    if hit.Some? {
      var k := hit.value;
      var v := after[k := Taken(after[k])];
      assert Lasts(v[i], id) && v[i] in v;
      if Ends(e.purpose, v[k]) {
        assert i != k;
        StaysWithout(v, i, k);
      }
    } else {
      assert s in after;
    }
  }

  lemma StepSparesPermanent(w: World, e: Event, id: string)
    requires Lasting(w, id) && SparesPermanent(e, id)
    ensures Lasting(Step(w, e), id)
  {
    hide FindStep, Replaced;
    var s :| s in w.list && Lasts(s, id);
    match e
    case Login(_, _, _) =>
      assert s in Step(w, e).list;
    case Find(_, _, _) => FindSparesPermanent(w, e, id);
    case AddPermanent(_, _) =>
      assert s in Step(w, e).list;
    case SetPermanent(_, _) =>
    case GiveBack(k) =>
      var i :| 0 <= i < |w.list| && w.list[i] == s;
      if Enabled(w, e) {
        assert Step(w, e).list[i] == if i == k then GivenBack(s) else s;
        assert Lasts(Step(w, e).list[i], id);
      }
    case GiveBackGone(_) =>
  }

  lemma {:induction false} RunSparesPermanent(w: World, events: seq<Event>, id: string)
    requires Lasting(w, id) && forall i :: 0 <= i < |events| ==> SparesPermanent(events[i], id)
    ensures Lasting(Run(w, events), id)
    decreases |events|
  {
    hide Step, Lasting, SparesPermanent;
    if events != [] {
      RunSparesPermanent(w, events[..|events| - 1], id);
      StepSparesPermanent(Run(w, events[..|events| - 1]), events[|events| - 1], id);
    }
  }

  /** A permanent session is found at any time, through logouts too, until it is removed or the permanent
      sessions are set anew. */
  lemma PermanentStays(w: World, id: string, made: int, later: seq<Event>, moment: int)
    requires forall i :: 0 <= i < |later| ==> SparesPermanent(later[i], id)
    ensures Looked(Run(Step(w, AddPermanent(id, made)), later).list, id, moment).1.Some?
  {
    hide Run, Looked;
    var v := Step(w, AddPermanent(id, made));
    assert NewPermanent(id, made) in v.list;
    assert Lasting(v, id);
    RunSparesPermanent(v, later, id);
    var list := Run(v, later).list;
    var s :| s in list && Lasts(s, id);
    LookedFrom(list, id, moment);
    var m := LookupExact(list, id, moment);
    assert s in Looked(list, id, moment).0;
  }
}
