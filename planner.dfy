/**
 * The hunter account state machine: a document store holding one account
 * per normalised hunter id (`hunters/{id}/profile/data` and
 * `hunters/{id}/tasks/{taskId}`), the session pointer that `localStorage`
 * and the component state keep, and the view of the current account that
 * the realtime listeners deliver. The login screen's submit handler and the
 * planner screen's store handlers are methods of `Planner`; the store
 * transitions they make are the functions below.
 */
module Planner {
  import opened Wrappers
  import opened Quests
  import Identity

  /** `hunters/{id}/profile/data`. */
  datatype Profile = Profile(hunterName: string, avatar: string, createdAt: Time)

  /** Everything stored under one hunter id. */
  datatype Account = Account(profile: Option<Profile>, tasks: map<TaskId, Quest>)

  /** The whole store, keyed by hunter id. */
  type Store = map<string, Account>

  /** How a submitted hunter name was resolved. */
  datatype Resolution = Login | Register

  /** What a read of `hunters/{key}` sees: an absent account is an empty one. */
  function AccountAt(store: Store, key: string): (a: Account)
    ensures key in store ==> a == store[key]
    ensures key !in store ==> a.profile.None? && a.tasks == map[]
  {
    if key in store then store[key] else Account(None, map[])
  }

  function ProfileOf(store: Store, key: string): Option<Profile> {
    AccountAt(store, key).profile
  }

  function TasksOf(store: Store, key: string): map<TaskId, Quest> {
    AccountAt(store, key).tasks
  }

  /**
   * A store written only by the planner: a profile sits under the id its
   * own name normalises to, and every mission keeps the completion invariant.
   */
  predicate ValidAccount(key: string, a: Account) {
    && (a.profile.Some? ==> Identity.Normalize(a.profile.value.hunterName) == key)
    && (forall id :: id in a.tasks ==> Consistent(a.tasks[id]))
  }

  predicate ValidStore(store: Store) {
    forall key :: key in store ==> ValidAccount(key, store[key])
  }

  /** No profile that exists in both stores has a different name or creation time. */
  ghost predicate NamesKept(s0: Store, s1: Store) {
    forall key :: ProfileOf(s0, key).Some? && ProfileOf(s1, key).Some? ==>
      && ProfileOf(s1, key).value.hunterName == ProfileOf(s0, key).value.hunterName
      && ProfileOf(s1, key).value.createdAt == ProfileOf(s0, key).value.createdAt
  }

  /** Every account other than `key` reads the same in both stores. */
  ghost predicate OthersUnchanged(s0: Store, s1: Store, key: string) {
    forall k :: k != key ==> AccountAt(s1, k) == AccountAt(s0, k)
  }

  // ---------------------------------------------------------------------
  // Store transitions
  // ---------------------------------------------------------------------

  /** `setDoc` of a new profile under the normalised id of `hunterName`, named by its trimmed form. */
  function Registered(store: Store, hunterName: string, avatar: string, now: Time): (r: Store)
    ensures ProfileOf(r, Identity.Normalize(hunterName)) == Some(Profile(Identity.Trim(hunterName), avatar, now))
    ensures TasksOf(r, Identity.Normalize(hunterName)) == TasksOf(store, Identity.Normalize(hunterName))
    ensures OthersUnchanged(store, r, Identity.Normalize(hunterName))
    ensures ProfileOf(store, Identity.Normalize(hunterName)).None? ==> NamesKept(store, r)
    ensures ValidStore(store) ==> ValidStore(r)
  {
    var key := Identity.Normalize(hunterName);
    Identity.NormalizeTrim(hunterName);
    store[key := Account(Some(Profile(Identity.Trim(hunterName), avatar, now)), TasksOf(store, key))]
  }

  /** `addDoc` or `updateDoc` of one mission of `key`. */
  function TaskWritten(store: Store, key: string, id: TaskId, q: Quest): (r: Store)
    ensures TasksOf(r, key) == TasksOf(store, key)[id := q]
    ensures ProfileOf(r, key) == ProfileOf(store, key)
    ensures OthersUnchanged(store, r, key) && NamesKept(store, r)
    ensures ValidStore(store) && Consistent(q) ==> ValidStore(r)
  {
    store[key := AccountAt(store, key).(tasks := TasksOf(store, key)[id := q])]
  }

  /** `deleteDoc` or a batch of deletes of missions of `key`; a missing id is no error. */
  function TasksRemoved(store: Store, key: string, ids: set<TaskId>): (r: Store)
    ensures TasksOf(r, key).Keys == TasksOf(store, key).Keys - ids
    ensures forall id :: id in TasksOf(r, key) ==> TasksOf(r, key)[id] == TasksOf(store, key)[id]
    ensures ProfileOf(r, key) == ProfileOf(store, key)
    ensures OthersUnchanged(store, r, key) && NamesKept(store, r)
    ensures ValidStore(store) ==> ValidStore(r)
  {
    store[key := AccountAt(store, key).(tasks := TasksOf(store, key) - ids)]
  }

  /** The delete-account batch: the given missions and the profile go. */
  function AccountRemoved(store: Store, key: string, ids: set<TaskId>): (r: Store)
    ensures ProfileOf(r, key).None?
    ensures TasksOf(r, key).Keys == TasksOf(store, key).Keys - ids
    ensures forall id :: id in TasksOf(r, key) ==> TasksOf(r, key)[id] == TasksOf(store, key)[id]
    ensures OthersUnchanged(store, r, key) && NamesKept(store, r)
    ensures ValidStore(store) ==> ValidStore(r)
  {
    store[key := Account(None, TasksOf(store, key) - ids)]
  }

  /** `updateDoc(profile, { avatar })`: the only profile field the settings may change. */
  function AvatarSet(store: Store, key: string, avatar: string): (r: Store)
    requires ProfileOf(store, key).Some?
    ensures ProfileOf(r, key) == Some(ProfileOf(store, key).value.(avatar := avatar))
    ensures TasksOf(r, key) == TasksOf(store, key)
    ensures OthersUnchanged(store, r, key) && NamesKept(store, r)
    ensures ValidStore(store) ==> ValidStore(r)
  {
    store[key := AccountAt(store, key).(profile := Some(ProfileOf(store, key).value.(avatar := avatar)))]
  }

  // ---------------------------------------------------------------------
  // What the missions listener delivers
  // ---------------------------------------------------------------------

  /**
   * `order` is what the query `orderBy('createdAt', 'desc')` returns for the
   * missions `m`: each id once, all of them, newest first.
   */
  predicate Listing(order: seq<TaskId>, m: map<TaskId, Quest>) {
    && (forall i :: 0 <= i < |order| ==> order[i] in m)
    && (forall id :: id in m ==> id in order)
    && (forall i, j :: 0 <= i < j < |order| ==> order[i] != order[j])
    && (forall i, j :: 0 <= i < j < |order| ==> m[order[i]].createdAt >= m[order[j]].createdAt)
  }

  /** `s.docs.map(d => ({ id: d.id, ...d.data() }))`. */
  function View(order: seq<TaskId>, m: map<TaskId, Quest>): (ts: seq<Task>)
    requires forall i :: 0 <= i < |order| ==> order[i] in m
    ensures |ts| == |order|
    ensures forall i :: 0 <= i < |order| ==> ts[i] == Task(order[i], m[order[i]])
  {
    seq(|order|, i requires 0 <= i < |order| => Task(order[i], m[order[i]]))
  }

  /** A delivered listing shows exactly the stored missions. */
  lemma ViewInStep(order: seq<TaskId>, m: map<TaskId, Quest>)
    requires Listing(order, m)
    ensures TaskIds(View(order, m)) == m.Keys
  {
    var ts := View(order, m);
    forall id | id in m
      ensures id in TaskIds(ts)
    {
      var i :| 0 <= i < |order| && order[i] == id;
      assert ts[i] in ts;
    }
  }

  /** Queues one delete per mission of the snapshot, as the batch `forEach` does. */
  method QueueTaskDeletes(snapshot: seq<Task>) returns (ids: set<TaskId>)
    ensures ids == TaskIds(snapshot)
  {
    ids := {};
    var i := 0;
    while i < |snapshot|
      invariant 0 <= i <= |snapshot|
      invariant ids == TaskIds(snapshot[..i])
    {
      assert snapshot[..i + 1] == snapshot[..i] + [snapshot[i]];
      ids := ids + {snapshot[i].id};
      i := i + 1;
    }
    assert snapshot[..i] == snapshot;
  }

  // ---------------------------------------------------------------------
  // The planner
  // ---------------------------------------------------------------------

  class Planner {
    /** The document store. */
    var store: Store
    /** The logged-in hunter id (`localStorage.mh_hunter_id` and `currentHunterId`). */
    var currentHunterId: Option<string>
    /** The profile the profile listener last delivered. */
    var profile: Option<Profile>
    /** The missions the missions listener last delivered. */
    var tasks: seq<Task>

    predicate Valid()
      reads this
    {
      && ValidStore(store)
      && currentHunterId != Some([])
      && (forall i :: 0 <= i < |tasks| ==> Consistent(tasks[i].doc))
    }

    /** Start-up: a non-empty id kept in `localStorage` resumes its session. */
    constructor(initial: Store, storedId: Option<string>)
      requires ValidStore(initial)
      ensures Valid()
      ensures store == initial && profile.None? && tasks == []
      ensures currentHunterId == if storedId.Some? && storedId.value != [] then storedId else None
    {
      store := initial;
      currentHunterId := if storedId.Some? && storedId.value != [] then storedId else None;
      profile := None;
      tasks := [];
    }

    /** The listeners of the current account deliver its profile and its missions. */
    method Sync(order: seq<TaskId>)
      requires Valid() && currentHunterId.Some?
      requires Listing(order, TasksOf(store, currentHunterId.value))
      modifies this
      ensures Valid()
      ensures store == old(store) && currentHunterId == old(currentHunterId)
      ensures profile == ProfileOf(store, currentHunterId.value)
      ensures tasks == View(order, TasksOf(store, currentHunterId.value))
      ensures TaskIds(tasks) == TasksOf(store, currentHunterId.value).Keys
    {
      var key := currentHunterId.value;
      profile := ProfileOf(store, key);
      tasks := View(order, TasksOf(store, key));
      ViewInStep(order, TasksOf(store, key));
    }

    /**
     * `handleSubmit`: a blank name does nothing; an id that already has a
     * profile logs in without writing; any other id registers a profile named
     * by the trimmed input with the chosen avatar. Either way the session
     * moves to the normalised id.
     */
    method Resolve(hunterName: string, selectedIcon: string, now: Time) returns (outcome: Option<Resolution>)
      requires Valid() && currentHunterId.None?
      requires 3 <= |hunterName| <= 20
      modifies this
      ensures Valid()
      ensures profile == old(profile) && tasks == old(tasks)
      ensures NamesKept(old(store), store)
      ensures Identity.Trim(hunterName) == [] ==> outcome.None? && store == old(store) && currentHunterId.None?
      ensures Identity.Trim(hunterName) != [] ==>
        var key := Identity.Normalize(hunterName);
        && currentHunterId == Some(key)
        && (ProfileOf(old(store), key).Some? ==> outcome == Some(Login) && store == old(store))
        && (ProfileOf(old(store), key).None? ==>
              outcome == Some(Register) && store == Registered(old(store), hunterName, selectedIcon, now))
    {
      if Identity.Trim(hunterName) == [] {
        return None;
      }
      var key := Identity.Normalize(hunterName);
      Identity.NormalizeEmpty(hunterName);
      if ProfileOf(store, key).Some? {
        outcome := Some(Login);
      } else {
        store := Registered(store, hunterName, selectedIcon, now);
        outcome := Some(Register);
      }
      currentHunterId := Some(key);
    }

    /**
     * `handleSaveTask`: with a name and a logged-in hunter, either merges the
     * form into the mission being edited (a mission that no longer exists
     * makes the update fail and nothing is written) or adds a new open
     * mission under `freshId`, the id the store generates.
     */
    method SaveTask(form: TaskForm, editModeTask: Option<TaskId>, freshId: TaskId, now: Time)
      requires Valid() && 1 <= form.stars <= 9
      requires currentHunterId.Some? ==> freshId !in TasksOf(store, currentHunterId.value)
      modifies this
      ensures Valid()
      ensures currentHunterId == old(currentHunterId) && profile == old(profile) && tasks == old(tasks)
      ensures NamesKept(old(store), store)
      ensures form.name == [] || currentHunterId.None? ==> store == old(store)
      ensures form.name != [] && currentHunterId.Some? ==>
        var key := currentHunterId.value;
        var m := TasksOf(old(store), key);
        match editModeTask
        case None => store == TaskWritten(old(store), key, freshId, NewQuest(form, now))
        case Some(id) =>
          store == if id in m then TaskWritten(old(store), key, id, Edited(m[id], form, now)) else old(store)
    {
      if form.name == [] || currentHunterId.None? {
        return;
      }
      var key := currentHunterId.value;
      var m := TasksOf(store, key);
      match editModeTask {
        case None =>
          store := TaskWritten(store, key, freshId, NewQuest(form, now));
        case Some(id) =>
          if id in m {
            store := TaskWritten(store, key, id, Edited(m[id], form, now));
          }
      }
    }

    /**
     * `toggleTask`: writes the negation of the flag the view shows, with a
     * completion time when completing. Without a hunter, or for a mission
     * that no longer exists, the write fails and nothing changes.
     */
    method ToggleTask(task: Task, now: Time)
      requires Valid()
      modifies this
      ensures Valid()
      ensures currentHunterId == old(currentHunterId) && profile == old(profile) && tasks == old(tasks)
      ensures NamesKept(old(store), store)
      ensures currentHunterId.None? || task.id !in TasksOf(old(store), currentHunterId.value) ==> store == old(store)
      ensures currentHunterId.Some? && task.id in TasksOf(old(store), currentHunterId.value) ==>
        var key := currentHunterId.value;
        var q := TasksOf(old(store), key)[task.id];
        && store == TaskWritten(old(store), key, task.id, Toggled(q, !task.doc.completed, now))
        && (q.completed == task.doc.completed ==> TasksOf(store, key)[task.id].completed == !q.completed)
    {
      if currentHunterId.None? {
        return;
      }
      var key := currentHunterId.value;
      var m := TasksOf(store, key);
      if task.id in m {
        var isCompleting := !task.doc.completed;
        store := TaskWritten(store, key, task.id, Toggled(m[task.id], isCompleting, now));
      }
    }

    /** `deleteTask`: once the hunter confirms, the mission's document is deleted. */
    method DeleteTask(id: TaskId, confirmed: bool)
      requires Valid()
      modifies this
      ensures Valid()
      ensures currentHunterId == old(currentHunterId) && profile == old(profile) && tasks == old(tasks)
      ensures NamesKept(old(store), store)
      ensures !confirmed || currentHunterId.None? ==> store == old(store)
      ensures confirmed && currentHunterId.Some? ==> store == TasksRemoved(old(store), currentHunterId.value, {id})
    {
      if confirmed && currentHunterId.Some? {
        store := TasksRemoved(store, currentHunterId.value, {id});
      }
    }

    /** `handleUpdateProfile({ avatar })`: a missing profile makes the update fail. */
    method UpdateAvatar(avatar: string)
      requires Valid()
      modifies this
      ensures Valid()
      ensures currentHunterId == old(currentHunterId) && profile == old(profile) && tasks == old(tasks)
      ensures NamesKept(old(store), store)
      ensures currentHunterId.None? || ProfileOf(old(store), currentHunterId.value).None? ==> store == old(store)
      ensures currentHunterId.Some? && ProfileOf(old(store), currentHunterId.value).Some? ==>
        store == AvatarSet(old(store), currentHunterId.value, avatar)
    {
      if currentHunterId.Some? && ProfileOf(store, currentHunterId.value).Some? {
        store := AvatarSet(store, currentHunterId.value, avatar);
      }
    }

    /** `handleLogout`: forgets the session and the view; the store is untouched. */
    method Logout()
      requires Valid()
      modifies this
      ensures Valid()
      ensures store == old(store)
      ensures currentHunterId.None? && profile.None? && tasks == []
    {
      currentHunterId := None;
      profile := None;
      tasks := [];
    }

    /**
     * `handleResetProgress`: one batch deletes every mission of the view's
     * snapshot. A failed commit writes nothing.
     */
    method ResetProgress(committed: bool)
      requires Valid()
      modifies this
      ensures Valid()
      ensures currentHunterId == old(currentHunterId) && profile == old(profile) && tasks == old(tasks)
      ensures NamesKept(old(store), store)
      ensures !committed || currentHunterId.None? ==> store == old(store)
      ensures committed && currentHunterId.Some? ==>
        store == TasksRemoved(old(store), currentHunterId.value, TaskIds(tasks))
    {
      if currentHunterId.None? {
        return;
      }
      var ids := QueueTaskDeletes(tasks);
      if committed {
        store := TasksRemoved(store, currentHunterId.value, ids);
      }
    }

    /**
     * `handleDeleteAccount`: one batch deletes the snapshot's missions and the
     * profile, then the hunter is logged out. A failed commit changes nothing.
     */
    method DeleteAccount(committed: bool)
      requires Valid()
      modifies this
      ensures Valid()
      ensures NamesKept(old(store), store)
      ensures !committed || old(currentHunterId).None? ==>
        store == old(store) && currentHunterId == old(currentHunterId) && profile == old(profile) && tasks == old(tasks)
      ensures committed && old(currentHunterId).Some? ==>
        && store == AccountRemoved(old(store), old(currentHunterId).value, TaskIds(old(tasks)))
        && currentHunterId.None? && profile.None? && tasks == []
    {
      if currentHunterId.None? {
        return;
      }
      var ids := QueueTaskDeletes(tasks);
      if committed {
        store := AccountRemoved(store, currentHunterId.value, ids);
        Logout();
      }
    }
  }

  // ---------------------------------------------------------------------
  // Properties of the transitions
  // ---------------------------------------------------------------------

  /** A reset from a view in step with the store leaves the account with no missions and its profile. */
  lemma ResetInStepClears(store: Store, key: string, snapshot: seq<Task>)
    requires TaskIds(snapshot) == TasksOf(store, key).Keys
    ensures TasksOf(TasksRemoved(store, key, TaskIds(snapshot)), key) == map[]
    ensures ProfileOf(TasksRemoved(store, key, TaskIds(snapshot)), key) == ProfileOf(store, key)
  {
    var r := TasksRemoved(store, key, TaskIds(snapshot));
    assert TasksOf(r, key).Keys == {};
  }

  /** A mission missing from a stale snapshot survives the reset unchanged. */
  lemma StaleResetKeeps(store: Store, key: string, snapshot: seq<Task>, id: TaskId)
    requires id in TasksOf(store, key) && forall t :: t in snapshot ==> t.id != id
    ensures id in TasksOf(TasksRemoved(store, key, TaskIds(snapshot)), key)
    ensures TasksOf(TasksRemoved(store, key, TaskIds(snapshot)), key)[id] == TasksOf(store, key)[id]
  {
  }

  /** Once an account is deleted, its name has no profile, so the next resolve of it registers. */
  lemma DeletedNameIsFree(store: Store, hunterName: string, ids: set<TaskId>)
    ensures var key := Identity.Normalize(hunterName);
      ProfileOf(AccountRemoved(store, key, ids), key).None?
  {
  }

  // ---------------------------------------------------------------------
  // Sessions
  // ---------------------------------------------------------------------

  /**
   * A hunter registers, logs out and comes back typing the name differently:
   * the second submission logs into the same account, whose profile keeps
   * the first name and avatar.
   */
  method ReturningHunter(initial: Store, name: string, retyped: string, icon: string, otherIcon: string, t1: Time, t2: Time)
    returns (first: Option<Resolution>, second: Option<Resolution>, kept: Option<Profile>)
    requires ValidStore(initial)
    requires 3 <= |name| <= 20 && 3 <= |retyped| <= 20
    requires Identity.Trim(name) != [] && Identity.Normalize(retyped) == Identity.Normalize(name)
    requires ProfileOf(initial, Identity.Normalize(name)).None?
    ensures first == Some(Register) && second == Some(Login)
    ensures kept == Some(Profile(Identity.Trim(name), icon, t1))
  {
    var p := new Planner(initial, None);
    first := p.Resolve(name, icon, t1);
    p.Logout();
    Identity.NormalizeEmpty(name);
    Identity.NormalizeEmpty(retyped);
    second := p.Resolve(retyped, otherIcon, t2);
    kept := ProfileOf(p.store, Identity.Normalize(name));
  }

  /**
   * A hunter logs in, the listeners deliver the account, and the account is
   * deleted: resolving the same name again registers a fresh account with
   * no missions.
   */
  method DeleteAccountThenRegister(initial: Store, name: string, icon: string, order: seq<TaskId>, t1: Time, t2: Time)
    returns (second: Option<Resolution>, leftover: set<TaskId>)
    requires ValidStore(initial)
    requires 3 <= |name| <= 20 && Identity.Trim(name) != []
    requires Listing(order, TasksOf(initial, Identity.Normalize(name)))
    ensures second == Some(Register) && leftover == {}
  {
    var key := Identity.Normalize(name);
    var p := new Planner(initial, None);
    var first := p.Resolve(name, icon, t1);
    p.Sync(order);
    p.DeleteAccount(true);
    second := p.Resolve(name, icon, t2);
    leftover := TasksOf(p.store, key).Keys;
  }

  /**
   * The account is deleted before the missions listener has delivered
   * anything: the batch holds no mission deletes, the missions stay in the
   * store, and the next registration of the name takes them over.
   */
  method DeleteBeforeSync(initial: Store, name: string, icon: string, t1: Time, t2: Time)
    returns (second: Option<Resolution>, leftover: set<TaskId>)
    requires ValidStore(initial)
    requires 3 <= |name| <= 20 && Identity.Trim(name) != []
    ensures second == Some(Register)
    ensures leftover == TasksOf(initial, Identity.Normalize(name)).Keys
  {
    var key := Identity.Normalize(name);
    var p := new Planner(initial, None);
    var first := p.Resolve(name, icon, t1);
    p.DeleteAccount(true);
    assert TaskIds([]) == {};
    second := p.Resolve(name, icon, t2);
    leftover := TasksOf(p.store, key).Keys;
  }
}
