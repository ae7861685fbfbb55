/**
 * The habit tracker's synchronisation with its per-user cloud document and
 * its local fallback cache, as a state machine over the events the screen
 * reacts to: the cached data read at start-up, sign-in and sign-out, the
 * document subscription's success and error callbacks, the three habit
 * mutations, and the save that follows each mutation.
 *
 * Each handler is one atomic step. The clock (`new Date().toISOString()`),
 * the id source (`Date.now()`) and the outcome of the remote write are
 * parameters of the events. The remote store is a map from user id to
 * document; writes by other clients reach this client only through the
 * documents carried by snapshot events.
 */
module CloudSync {
  import opened Wrappers
  import opened JsString
  import opened HabitTracker

  datatype User = User(uid: string, email: Option<string>, displayName: Option<string>)

  /** A top-level field value of a user document. */
  datatype Value =
    | Null
    | Text(s: string)
    | HabitList(habits: seq<Habit>)
    | DayMap(days: Completions)
    | Other(tag: string)   // any field this screen neither reads nor writes

  type Document = map<string, Value>

  /** The two local-storage entries used as fallback, already decoded. */
  datatype Cache = Cache(habits: Option<seq<Habit>>, completions: Option<Completions>)

  const SyncErrorMessage: string := "Cloud Sync Error: Cek Firebase Rules atau Koneksi."
  const SaveErrorMessage: string := "Gagal menyimpan ke Cloud. Data tersimpan di Lokal."

  /** The fields a save writes; every other field of the document is left as it was. */
  const SavedFields: set<string> := {"habits", "completions", "lastUpdated", "email", "name"}

  datatype State = State(
    user: Option<User>,
    habits: seq<Habit>,
    completions: Completions,
    loaded: bool,          // `isDataLoaded`: the gate that lets saves through
    dataLoading: bool,
    error: Option<string>,
    cache: Cache,          // local storage
    remote: map<string, Document>)

  datatype Event =
    | Bootstrap(stored: Cache)
    | Login(who: User)
    | Logout
    | SnapshotOk(doc: Option<Document>)   // None: the document does not exist
    | SnapshotErr
    | Add(text: string, id: string)
    | Delete(id: string)
    | Toggle(habitId: string, date: string)
    | Save(ok: bool, now: string)

  /** The screen as first rendered, over whatever the remote store holds. */
  function Initial(remote: map<string, Document>): State {
    State(None, [], map[], false, false, None, Cache(None, None), remote)
  }

  /** Saves pass only with a signed-in user and after a successful snapshot. */
  predicate GateOpen(s: State) {
    s.user.Some? && s.loaded
  }

  /** The mount effect's fallback load: cached habits and completions, when stored, replace the shown ones. */
  function LoadFallback(s: State, stored: Cache): (r: State)
    ensures r.cache == stored && r.user == s.user && r.loaded == s.loaded && r.remote == s.remote
    ensures r.habits == (if stored.habits.Some? then stored.habits.value else s.habits)
    ensures r.completions == (if stored.completions.Some? then stored.completions.value else s.completions)
  {
    s.(cache := stored, habits := stored.habits.GetOr(s.habits), completions := stored.completions.GetOr(s.completions))
  }

  /** Sign-in as the code is written: the subscription starts, nothing is reset. */
  function SignIn(s: State, u: User): (r: State)
    ensures r.user == Some(u) && r.dataLoading
    ensures r.loaded == s.loaded && r.habits == s.habits && r.completions == s.completions
    ensures r.cache == s.cache && r.remote == s.remote
  {
    s.(user := Some(u), dataLoading := true)
  }

  /**
   * Sign-out as the code is written: the screen's habits and completions are
   * emptied, the local cache is kept, and the `loaded` gate is left as it was.
   */
  function SignOut(s: State): (r: State)
    ensures r.user == None && r.habits == [] && r.completions == map[] && !r.dataLoading
    ensures r.loaded == s.loaded && r.cache == s.cache && r.remote == s.remote && r.error == s.error
  {
    s.(user := None, habits := [], completions := map[], dataLoading := false)
  }

  /**
   * A mount of the screen, first or after a reload: the state starts afresh,
   * the mount effect loads the fallback, and in the same commit the
   * synchronisation effect runs with no user yet and takes its sign-out
   * branch, so what the fallback set is emptied again. Only the local cache
   * and the cloud outlive the previous mount.
   */
  function Startup(s: State, stored: Cache): (r: State)
    ensures r.user == None && r.habits == [] && r.completions == map[] && !r.dataLoading
    ensures !r.loaded && r.error == None
    ensures r.cache == stored && r.remote == s.remote
  {
    SignOut(LoadFallback(Initial(s.remote), stored))
  }

  /** `data.habits` when it holds a habit list. */
  function HabitsField(doc: Document): Option<seq<Habit>> {
    if "habits" in doc && doc["habits"].HabitList? then Some(doc["habits"].habits) else None
  }

  /** `data.completions` when it holds a day map. */
  function CompletionsField(doc: Document): Option<Completions> {
    if "completions" in doc && doc["completions"].DayMap? then Some(doc["completions"].days) else None
  }

  /**
   * The subscription's success callback. Fields present in an existing
   * document replace the screen state and its cache entry; a missing
   * document or field keeps what is shown. Either way the gate opens.
   * Without a signed-in user there is no subscription and nothing happens.
   */
  function ApplySnapshot(s: State, doc: Option<Document>): (r: State)
    ensures s.user.None? ==> r == s
    ensures s.user.Some? ==> r.loaded && !r.dataLoading && r.error == None
    ensures r.user == s.user && r.remote == s.remote
    ensures s.user.Some? && doc.Some? && HabitsField(doc.value).Some? ==>
      r.habits == HabitsField(doc.value).value && r.cache.habits == HabitsField(doc.value)
    ensures (doc.None? || HabitsField(doc.value).None?) ==> r.habits == s.habits && r.cache.habits == s.cache.habits
    ensures s.user.Some? && doc.Some? && CompletionsField(doc.value).Some? ==>
      r.completions == CompletionsField(doc.value).value && r.cache.completions == CompletionsField(doc.value)
    ensures (doc.None? || CompletionsField(doc.value).None?) ==>
      r.completions == s.completions && r.cache.completions == s.cache.completions
  {
    if s.user.None? then s else
      var s1 := match doc
        case None => s
        case Some(d) =>
          var s2 := match HabitsField(d)
            case Some(hs) => s.(habits := hs, cache := s.cache.(habits := Some(hs)))
            case None => s;
          match CompletionsField(d)
          case Some(cs) => s2.(completions := cs, cache := s2.cache.(completions := Some(cs)))
          case None => s2;
      s1.(loaded := true, dataLoading := false, error := None)
  }

  /** The subscription's error callback: an error is shown and the gate is not opened. */
  function SnapshotError(s: State): (r: State)
    ensures s.user.None? ==> r == s
    ensures s.user.Some? ==> r.error == Some(SyncErrorMessage) && !r.dataLoading
    ensures r.loaded == s.loaded && r.habits == s.habits && r.completions == s.completions
    ensures r.cache == s.cache && r.remote == s.remote && r.user == s.user
  {
    if s.user.None? then s else s.(error := Some(SyncErrorMessage), dataLoading := false)
  }

  function OptText(o: Option<string>): Value {
    match o
    case Some(t) => Text(t)
    case None => Null
  }

  /** The object passed to the merge write. */
  function Payload(habits: seq<Habit>, completions: Completions, now: string, u: User): (p: Document)
    ensures p.Keys == SavedFields
  {
    map["habits" := HabitList(habits), "completions" := DayMap(completions), "lastUpdated" := Text(now),
        "email" := OptText(u.email), "name" := OptText(u.displayName)]
  }

  /**
   * One field of a merge write: a nested map is merged key by key into a
   * stored map (an empty map replaces it); any other value replaces the
   * stored one.
   */
  function MergeValue(stored: Option<Value>, written: Value): Value {
    if stored.Some? && stored.value.DayMap? && written.DayMap? && written.days != map[] then
      DayMap(stored.value.days + written.days)
    else written
  }

  /** A write with merge semantics into a possibly absent document. */
  function MergeWrite(doc: Document, payload: Document): (r: Document)
    ensures r.Keys == doc.Keys + payload.Keys
    ensures forall k :: k in doc && k !in payload ==> r[k] == doc[k]
    ensures forall k :: k in payload && !(k in doc && doc[k].DayMap? && payload[k].DayMap? && payload[k].days != map[]) ==>
      r[k] == payload[k]
    ensures forall k :: k in payload && payload[k].DayMap? ==>
      r[k].DayMap?
      && (forall d :: d in payload[k].days ==> d in r[k].days && r[k].days[d] == payload[k].days[d])
      && (forall d :: d in r[k].days && d !in payload[k].days ==>
            payload[k].days != map[] && k in doc && doc[k].DayMap? && d in doc[k].days && r[k].days[d] == doc[k].days[d])
    ensures forall k :: k in payload && k in doc && doc[k].DayMap? && payload[k].DayMap? && payload[k].days != map[] ==>
      r[k] == DayMap(doc[k].days + payload[k].days)
  {
    map k | k in doc.Keys + payload.Keys ::
      if k in payload then MergeValue(if k in doc then Some(doc[k]) else None, payload[k]) else doc[k]
  }

  function StoredDocument(remote: map<string, Document>, uid: string): Document {
    if uid in remote then remote[uid] else map[]
  }

  /**
   * `saveToFirebase`: nothing at all happens unless the gate is open. Then
   * both cache entries are written, and the merge write either lands in the
   * user's document (clearing the error) or fails (setting it).
   */
  function SaveToCloud(s: State, ok: bool, now: string): (r: State)
    ensures !GateOpen(s) ==> r == s
    ensures GateOpen(s) ==>
      && r.user == s.user && r.loaded && r.habits == s.habits && r.completions == s.completions
      && r.cache == Cache(Some(s.habits), Some(s.completions))
    ensures GateOpen(s) && !ok ==> r.remote == s.remote && r.error == Some(SaveErrorMessage)
    ensures GateOpen(s) && ok ==>
      var uid := s.user.value.uid;
      && r.error == None
      && r.remote.Keys == s.remote.Keys + {uid}
      && (forall v :: v in s.remote && v != uid ==> r.remote[v] == s.remote[v])
      && r.remote[uid] == MergeWrite(StoredDocument(s.remote, uid), Payload(s.habits, s.completions, now, s.user.value))
  {
    if !GateOpen(s) then s else
      var cached := s.(cache := Cache(Some(s.habits), Some(s.completions)));
      if ok then
        var u := s.user.value;
        var doc := MergeWrite(StoredDocument(s.remote, u.uid), Payload(s.habits, s.completions, now, u));
        cached.(remote := s.remote[u.uid := doc], error := None)
      else
        cached.(error := Some(SaveErrorMessage))
  }

  /** The effect of an event after which the synchronisation effect does not run again. */
  function Handle(s: State, e: Event): (r: State)
    requires !ChangesIdentity(e)
    ensures r.user == s.user
    ensures !s.loaded && r.loaded ==> e.SnapshotOk? && s.user.Some?
    ensures r.loaded == s.loaded || (e.SnapshotOk? && s.user.Some?)
    ensures r.remote != s.remote ==> e.Save? && e.ok && GateOpen(s)
    ensures r.cache != s.cache ==> e.SnapshotOk? || (e.Save? && GateOpen(s))
    ensures e.Add? ==> r == s.(habits := AddHabit(s.habits, e.text, e.id))
    ensures e.Delete? ==> r == s.(habits := DeleteHabit(s.habits, e.id))
    ensures e.Toggle? ==> r == s.(completions := ToggleHabit(s.completions, e.habitId, e.date))
  {
    match e
    case SnapshotOk(doc) => ApplySnapshot(s, doc)
    case SnapshotErr => SnapshotError(s)
    case Add(text, id) => s.(habits := AddHabit(s.habits, text, id))
    case Delete(id) => s.(habits := DeleteHabit(s.habits, id))
    case Toggle(id, date) => s.(completions := ToggleHabit(s.completions, id, date))
    case Save(ok, now) => SaveToCloud(s, ok, now)
  }

  /**
   * Deleting a habit does not touch the completions, so its ids stay behind:
   * with two habits both done on a day, deleting one shows 200% for that day.
   */
  lemma {:induction false} DeleteLeavesCompletions(s: State, a: string, b: string, date: string)
    requires s.habits == [Habit("1", a), Habit("2", b)] && s.completions == map[date := ["1", "2"]]
    ensures var r := Step(s, Delete("2"));
      && r.completions == s.completions && r.habits == [Habit("1", a)]
      && Progress(s.habits, s.completions, date) == 100
      && Progress(r.habits, r.completions, date) == 200
  {
    var r := Step(s, Delete("2"));
    assert DeleteHabit(s.habits, "2") == [Habit("1", a)] by {
      var t := DeleteHabit(s.habits, "2");
      assert Habit("1", a) in t;
      assert forall h :: h in t ==> h == Habit("1", a);
    }
  }

  /** One event, as the code is written. */
  function Step(s: State, e: Event): (r: State)
    ensures !s.loaded && r.loaded ==> e.SnapshotOk? && s.user.Some?
    ensures r.remote != s.remote ==> e.Save? && GateOpen(s)
  {
    match e
    case Bootstrap(stored) => Startup(s, stored)
    case Login(u) => SignIn(s, u)
    case Logout => SignOut(s)
    case _ => Handle(s, e)
  }

  /**
   * One event with the gate closed again on every change of identity, so
   * that a new session must receive its own snapshot before saving.
   */
  function StepGated(s: State, e: Event): (r: State)
    ensures ChangesIdentity(e) ==> !r.loaded
    ensures !s.loaded && r.loaded ==> e.SnapshotOk? && s.user.Some?
    ensures r.remote != s.remote ==> e.Save? && GateOpen(s)
  {
    match e
    case Bootstrap(stored) => Startup(s, stored)
    case Login(u) => SignIn(s, u).(loaded := false)
    case Logout => SignOut(s).(loaded := false)
    case _ => Handle(s, e)
  }

  function Run(s: State, events: seq<Event>): State {
    if events == [] then s else Step(Run(s, events[..|events| - 1]), events[|events| - 1])
  }

  function RunGated(s: State, events: seq<Event>): State {
    if events == [] then s else StepGated(RunGated(s, events[..|events| - 1]), events[|events| - 1])
  }

  /**
   * The events after which the synchronisation effect runs for the current
   * user: the first commit, where there is none yet, sign-in and sign-out.
   */
  predicate ChangesIdentity(e: Event) {
    e.Bootstrap? || e.Login? || e.Logout?
  }

  /** The user signed in after `events`: the last sign-in not followed by a sign-out or the first commit. */
  function UserAfter(events: seq<Event>): Option<User> {
    if events == [] then None else
      match events[|events| - 1]
      case Login(u) => Some(u)
      case Logout => None
      case Bootstrap(_) => None
      case _ => UserAfter(events[..|events| - 1])
  }

  /**
   * Some snapshot arrived while a user was signed in, and the identity has
   * not changed since.
   */
  ghost predicate SnapshotSinceSignIn(events: seq<Event>) {
    exists i :: 0 <= i < |events| && events[i].SnapshotOk? && UserAfter(events[..i]).Some?
      && forall j :: i < j < |events| ==> !ChangesIdentity(events[j])
  }

  lemma {:induction false} RunGatedUser(remote: map<string, Document>, events: seq<Event>)
    ensures RunGated(Initial(remote), events).user == UserAfter(events)
  {
    if events != [] {
      RunGatedUser(remote, events[..|events| - 1]);
    }
  }

  lemma {:induction false} SnapshotSinceReset(init: seq<Event>, e: Event)
    requires ChangesIdentity(e)
    ensures !SnapshotSinceSignIn(init + [e])
  {
    var es := init + [e];
    forall i | 0 <= i < |es| && es[i].SnapshotOk?
      ensures exists j :: i < j < |es| && ChangesIdentity(es[j])
    {
      assert ChangesIdentity(es[|es| - 1]);
    }
  }

  lemma {:induction false} SnapshotSinceOpen(init: seq<Event>, e: Event)
    requires e.SnapshotOk? && UserAfter(init).Some?
    ensures SnapshotSinceSignIn(init + [e])
  {
    var es := init + [e];
    assert es[..|init|] == init;
    assert es[|init|].SnapshotOk?;
  }

  lemma {:induction false} SnapshotSinceKeep(init: seq<Event>, e: Event)
    requires !ChangesIdentity(e) && !(e.SnapshotOk? && UserAfter(init).Some?)
    ensures SnapshotSinceSignIn(init + [e]) <==> SnapshotSinceSignIn(init)
  {
    var es := init + [e];
    if SnapshotSinceSignIn(es) {
      var i :| 0 <= i < |es| && es[i].SnapshotOk? && UserAfter(es[..i]).Some?
        && forall j :: i < j < |es| ==> !ChangesIdentity(es[j]);
      assert es[..|init|] == init;
      assert i < |init|;
      assert init[i] == es[i] && init[..i] == es[..i];
      assert forall j :: i < j < |init| ==> init[j] == es[j];
    }
    if SnapshotSinceSignIn(init) {
      var i :| 0 <= i < |init| && init[i].SnapshotOk? && UserAfter(init[..i]).Some?
        && forall j :: i < j < |init| ==> !ChangesIdentity(init[j]);
      assert init[i] == es[i] && init[..i] == es[..i];
      assert forall j :: i < j < |init| ==> init[j] == es[j];
    }
  }

  /**
   * With the gate reset on every change of identity, it is open exactly when
   * a snapshot has arrived for the user signed in now.
   */
  lemma {:induction false} GatedLoadedIff(remote: map<string, Document>, events: seq<Event>)
    ensures RunGated(Initial(remote), events).loaded <==> SnapshotSinceSignIn(events)
  {
    if events == [] {
    } else {
      var init := events[..|events| - 1];
      var e := events[|events| - 1];
      assert events == init + [e];
      GatedLoadedIff(remote, init);
      RunGatedUser(remote, init);
      if ChangesIdentity(e) {
        SnapshotSinceReset(init, e);
      } else if e.SnapshotOk? && UserAfter(init).Some? {
        SnapshotSinceOpen(init, e);
      } else {
        SnapshotSinceKeep(init, e);
      }
    }
  }

  /**
   * The property the guard of `saveToFirebase` exists for: with the gate
   * reset on identity changes, a save reaches the cloud only for a signed-in
   * user whose own snapshot has already been received.
   */
  lemma {:induction false} GatedSaveNeedsSnapshot(remote: map<string, Document>, events: seq<Event>, ok: bool, now: string)
    requires StepGated(RunGated(Initial(remote), events), Save(ok, now)).remote != RunGated(Initial(remote), events).remote
    ensures UserAfter(events).Some? && SnapshotSinceSignIn(events)
  {
    GatedLoadedIff(remote, events);
    RunGatedUser(remote, events);
  }

  /** As written, a sign-out followed by a sign-in leaves the gate as it was. */
  lemma {:induction false} AsWrittenGateSurvivesIdentityChange(s: State, u: User)
    ensures Run(s, [Logout, Login(u)]).loaded == s.loaded
    ensures Run(s, [Logout, Login(u)]).user == Some(u)
  {
    RunSnoc(s, [], Logout);
    RunSnoc(s, [Logout], Login(u));
  }

  /**
   * Reading back what a successful save wrote: the snapshot that echoes the
   * write shows the saved habits exactly and every saved day's list; when
   * some day is saved, days stored earlier and absent locally survive the
   * merge.
   */
  lemma {:induction false} SaveThenEchoSnapshot(s: State, now: string)
    requires GateOpen(s)
    ensures
      var r := SaveToCloud(s, true, now);
      var back := ApplySnapshot(r, Some(r.remote[s.user.value.uid]));
      && back.habits == s.habits
      && back.loaded
      && s.completions.Keys <= back.completions.Keys
      && (forall d :: d in s.completions ==> back.completions[d] == s.completions[d])
      && (CompletionsField(StoredDocument(s.remote, s.user.value.uid)).None? ==> back.completions == s.completions)
      && (var stored := CompletionsField(StoredDocument(s.remote, s.user.value.uid));
          stored.Some? && s.completions != map[] ==>
            forall d :: d in stored.value && d !in s.completions ==>
              d in back.completions && back.completions[d] == stored.value[d])
  {
    var uid := s.user.value.uid;
    var r := SaveToCloud(s, true, now);
    var p := Payload(s.habits, s.completions, now, s.user.value);
    var doc := r.remote[uid];
    assert "habits" in p && p["habits"] == HabitList(s.habits);
    assert "completions" in p && p["completions"] == DayMap(s.completions);
    assert HabitsField(doc) == Some(s.habits);
    assert CompletionsField(doc).Some?;
  }

  /** Whatever the local cache holds, the first commit shows no habits and no completions. */
  lemma {:induction false} StartupShowsNoCache(remote: map<string, Document>, stored: Cache)
    ensures var r := Run(Initial(remote), [Bootstrap(stored)]);
      r.habits == [] && r.completions == map[] && r.cache == stored && r.user == None
    ensures var r := RunGated(Initial(remote), [Bootstrap(stored)]);
      r.habits == [] && r.completions == map[] && r.cache == stored && r.user == None
  {
    RunSnoc(Initial(remote), [], Bootstrap(stored));
    RunGatedSnoc(Initial(remote), [], Bootstrap(stored));
    assert [] + [Bootstrap(stored)] == [Bootstrap(stored)];
  }

  /**
   * A reload in the middle of any trace, as written, closes the gate and
   * clears the error, so the next user must again wait for a snapshot.
   */
  lemma {:induction false} ReloadClosesGate(s0: State, events: seq<Event>, stored: Cache)
    ensures var r := Run(s0, events + [Bootstrap(stored)]);
      !GateOpen(r) && !r.loaded && r.error == None && r.habits == [] && r.cache == stored
  {
    RunSnoc(s0, events, Bootstrap(stored));
  }

  /** Start-up with cached habits, a first sign-in to a missing document, and one habit added. */
  function StartThenAdd(hs: seq<Habit>, u: User, text: string, id: string): seq<Event> {
    [Bootstrap(Cache(Some(hs), None)), Login(u), SnapshotOk(None), Add(text, id)]
  }

  /**
   * Cached habits never reach a new cloud document: after the missing
   * document's snapshot the screen is still empty, so the first save writes
   * only the habit added since.
   */
  lemma {:induction false} CachedHabitsNotSaved(hs: seq<Habit>, u: User, text: string, id: string, now: string)
    requires !AllWhitespace(text)
    ensures HabitsField(StoredDocument(Run(Initial(map[]), StartThenAdd(hs, u, text, id) + [Save(true, now)]).remote, u.uid))
         == Some([Habit(id, Trim(text))])
    ensures HabitsField(StoredDocument(RunGated(Initial(map[]), StartThenAdd(hs, u, text, id) + [Save(true, now)]).remote, u.uid))
         == Some([Habit(id, Trim(text))])
  {
    var s4 := StartThenAddState(hs, u, text, id);
    SaveAfterRun(Initial(map[]), StartThenAdd(hs, u, text, id), now);
    var g4 := GatedStartThenAddState(hs, u, text, id);
    GatedSaveAfterRun(Initial(map[]), StartThenAdd(hs, u, text, id), now);
  }

  /** The state after `StartThenAdd`, as written: only the added habit is shown, and the gate is open. */
  lemma {:induction false} StartThenAddState(hs: seq<Habit>, u: User, text: string, id: string) returns (s4: State)
    requires !AllWhitespace(text)
    ensures s4 == Run(Initial(map[]), StartThenAdd(hs, u, text, id))
    ensures s4.habits == [Habit(id, Trim(text))] && GateOpen(s4) && s4.user == Some(u)
  {
    var s0 := Initial(map[]);
    var e1 := [Bootstrap(Cache(Some(hs), None))];
    var e2 := e1 + [Login(u)];
    var e3 := e2 + [SnapshotOk(None)];
    var e4 := e3 + [Add(text, id)];
    assert e4 == StartThenAdd(hs, u, text, id);
    RunSnoc(s0, [], Bootstrap(Cache(Some(hs), None)));
    assert [] + [Bootstrap(Cache(Some(hs), None))] == e1;
    RunSnoc(s0, e1, Login(u));
    RunSnoc(s0, e2, SnapshotOk(None));
    assert Run(s0, e3).habits == [] && GateOpen(Run(s0, e3));
    RunSnoc(s0, e3, Add(text, id));
    s4 := Run(s0, e4);
  }

  /** The same state under the corrected step. */
  lemma {:induction false} GatedStartThenAddState(hs: seq<Habit>, u: User, text: string, id: string) returns (s4: State)
    requires !AllWhitespace(text)
    ensures s4 == RunGated(Initial(map[]), StartThenAdd(hs, u, text, id))
    ensures s4.habits == [Habit(id, Trim(text))] && GateOpen(s4) && s4.user == Some(u)
  {
    var s0 := Initial(map[]);
    var e1 := [Bootstrap(Cache(Some(hs), None))];
    var e2 := e1 + [Login(u)];
    var e3 := e2 + [SnapshotOk(None)];
    var e4 := e3 + [Add(text, id)];
    assert e4 == StartThenAdd(hs, u, text, id);
    RunGatedSnoc(s0, [], Bootstrap(Cache(Some(hs), None)));
    assert [] + [Bootstrap(Cache(Some(hs), None))] == e1;
    RunGatedSnoc(s0, e1, Login(u));
    RunGatedSnoc(s0, e2, SnapshotOk(None));
    assert RunGated(s0, e3).habits == [] && GateOpen(RunGated(s0, e3));
    RunGatedSnoc(s0, e3, Add(text, id));
    s4 := RunGated(s0, e4);
  }

  /** `SaveAfterRun` for the corrected step. */
  lemma {:induction false} GatedSaveAfterRun(s0: State, events: seq<Event>, now: string)
    requires GateOpen(RunGated(s0, events))
    ensures HabitsField(StoredDocument(RunGated(s0, events + [Save(true, now)]).remote, RunGated(s0, events).user.value.uid))
         == Some(RunGated(s0, events).habits)
  {
    var s := RunGated(s0, events);
    RunGatedSnoc(s0, events, Save(true, now));
    assert StepGated(s, Save(true, now)) == SaveToCloud(s, true, now);
    SaveWritesHabits(s, now);
  }

  /** The mount, A's session, then B signs in and adds a habit before B's snapshot arrives. */
  function SwitchThenAdd(c: Cache, a: User, b: User, text: string, id: string): seq<Event> {
    [Bootstrap(c), Login(a), SnapshotOk(None), Logout, Login(b), Add(text, id)]
  }

  /**
   * As written: the save that follows replaces whatever habit list B's
   * document held with the single new habit, though no snapshot was
   * received since B signed in.
   */
  lemma {:induction false} AsWrittenSavesBeforeSnapshot(remote: map<string, Document>, c: Cache, a: User, b: User, text: string, id: string, now: string)
    requires !AllWhitespace(text)
    ensures !SnapshotSinceSignIn(SwitchThenAdd(c, a, b, text, id))
    ensures HabitsField(StoredDocument(Run(Initial(remote), SwitchThenAdd(c, a, b, text, id) + [Save(true, now)]).remote, b.uid))
         == Some([Habit(id, Trim(text))])
  {
    var events := SwitchThenAdd(c, a, b, text, id);
    NoSnapshotSinceSwitch(events);
    var s5 := AsWrittenSwitchState(remote, c, a, b, text, id);
    SaveAfterRun(Initial(remote), events, now);
  }

  /** A successful save appended to a trace that leaves the gate open writes the shown habits. */
  lemma {:induction false} SaveAfterRun(s0: State, events: seq<Event>, now: string)
    requires GateOpen(Run(s0, events))
    ensures HabitsField(StoredDocument(Run(s0, events + [Save(true, now)]).remote, Run(s0, events).user.value.uid))
         == Some(Run(s0, events).habits)
  {
    var s := Run(s0, events);
    RunSnoc(s0, events, Save(true, now));
    assert Step(s, Save(true, now)) == SaveToCloud(s, true, now);
    SaveWritesHabits(s, now);
  }

  lemma {:induction false} NoSnapshotSinceSwitch(events: seq<Event>)
    requires |events| == 6 && events[2].SnapshotOk? && events[4].Login?
    requires forall i :: 0 <= i < 6 && i != 2 ==> !events[i].SnapshotOk?
    ensures !SnapshotSinceSignIn(events)
  {
    forall i | 0 <= i < |events| && events[i].SnapshotOk?
      ensures i < 4 && ChangesIdentity(events[4])
    {
    }
  }

  /** A save through an open gate stores the shown habit list as the document's habits. */
  lemma {:induction false} SaveWritesHabits(s: State, now: string)
    requires GateOpen(s)
    ensures HabitsField(StoredDocument(SaveToCloud(s, true, now).remote, s.user.value.uid)) == Some(s.habits)
  {
    var p := Payload(s.habits, s.completions, now, s.user.value);
    assert "habits" in p && p["habits"] == HabitList(s.habits);
  }

  /** The state reached as written: B signed in, the new habit shown, the gate still open from A's session. */
  lemma {:induction false} AsWrittenSwitchState(remote: map<string, Document>, c: Cache, a: User, b: User, text: string, id: string) returns (s5: State)
    requires !AllWhitespace(text)
    ensures s5 == Run(Initial(remote), SwitchThenAdd(c, a, b, text, id))
    ensures s5.habits == [Habit(id, Trim(text))] && GateOpen(s5) && s5.user == Some(b)
  {
    var s0 := Initial(remote);
    var e0 := [Bootstrap(c)];
    var e1 := e0 + [Login(a)];
    var e2 := e1 + [SnapshotOk(None)];
    var e3 := e2 + [Logout];
    var e4 := e3 + [Login(b)];
    assert e4 + [Add(text, id)] == SwitchThenAdd(c, a, b, text, id);
    RunSnoc(s0, [], Bootstrap(c));
    assert [] + [Bootstrap(c)] == e0;
    var s1 := SignIn(Run(s0, e0), a);
    RunSnoc(s0, e0, Login(a));
    assert Run(s0, e1) == s1;
    var s2 := ApplySnapshot(s1, None);
    RunSnoc(s0, e1, SnapshotOk(None));
    assert Run(s0, e2) == s2 && s2.loaded;
    var s3 := SignOut(s2);
    RunSnoc(s0, e2, Logout);
    assert Run(s0, e3) == s3 && s3.loaded;
    var s4 := SignIn(s3, b);
    RunSnoc(s0, e3, Login(b));
    assert Run(s0, e4) == s4 && s4.loaded && s4.habits == [];
    s5 := s4.(habits := AddHabit(s4.habits, text, id));
    RunSnoc(s0, e4, Add(text, id));
    assert Step(s4, Add(text, id)) == s5;
  }

  /** With the gate reset on identity changes, the same events leave the cloud untouched. */
  lemma {:induction false} GatedKeepsCloudOnSwitch(remote: map<string, Document>, c: Cache, a: User, b: User, text: string, id: string, now: string)
    ensures RunGated(Initial(remote), SwitchThenAdd(c, a, b, text, id) + [Save(true, now)]).remote == remote
  {
    var s0 := Initial(remote);
    var e0 := [Bootstrap(c)];
    var e1 := e0 + [Login(a)];
    var e2 := e1 + [SnapshotOk(None)];
    var e3 := e2 + [Logout];
    var e4 := e3 + [Login(b)];
    var e5 := e4 + [Add(text, id)];
    assert e5 == SwitchThenAdd(c, a, b, text, id);
    RunGatedSnoc(s0, [], Bootstrap(c));
    assert [] + [Bootstrap(c)] == e0;
    RunGatedSnoc(s0, e0, Login(a));
    RunGatedSnoc(s0, e1, SnapshotOk(None));
    RunGatedSnoc(s0, e2, Logout);
    RunGatedSnoc(s0, e3, Login(b));
    RunGatedSnoc(s0, e4, Add(text, id));
    RunGatedSnoc(s0, e5, Save(true, now));
    assert !RunGated(s0, e4).loaded && !RunGated(s0, e5).loaded;
    assert RunGated(s0, e5).remote == remote;
  }

  lemma {:induction false} RunSnoc(s: State, events: seq<Event>, e: Event)
    ensures Run(s, events + [e]) == Step(Run(s, events), e)
  {
    assert (events + [e])[..|events|] == events;
  }

  lemma {:induction false} RunGatedSnoc(s: State, events: seq<Event>, e: Event)
    ensures RunGated(s, events + [e]) == StepGated(RunGated(s, events), e)
  {
    assert (events + [e])[..|events|] == events;
  }
}
