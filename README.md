# Hunter quest planner: a verified model

This project models the core of a small quest tracker themed on Monster Hunter.
Hunters log in under a name. The name is normalised into an account id.
Each account holds a profile and a list of missions ("quests") with a star
difficulty, an optional due date and a completion flag. Completed missions
earn points, points earn a hunter rank, and the rank earns a title.

The application is one React source file. It defines four components: the
login screen `HunterLogin`, the planner screen `MHPlanner`, the settings
dialog `SettingsModal` and the mission card `TaskCard`. It also defines one
hook, `useMonsterIcons`. All of them read and write a Firestore document
store. The model keeps their logic and drops the rendering:

- `Identity` (identity.dfy) is the account-id normaliser. It trims the name,
  lower-cases it and turns each whitespace run into one `-`.
- `Quests` (quests.dfy) is the stored mission document and the three writes
  made to it: creation, edit and the completion toggle. It also holds the
  edit form filled from a mission (`startEditTask`).
- `Progress` (progress.dfy) computes points, rank, progress and the rank title.
- `TaskFilter` (filter.dfy) is the search-and-tab filter of the mission list.
- `Icons` (icons.dfy) derives the monster icon catalogue from an asset-folder listing.
- `Deadline` (deadline.dfy) classifies a mission card's due date as overdue or due within a day.
- `Planner` (planner.dfy) is the account state machine. A class `Planner`
  holds four things:
  - the store, a map from hunter id to account (profile and missions);
  - the session pointer `currentHunterId`;
  - the profile view, which the realtime listeners fill;
  - the mission view, which the realtime listeners fill.

  The login screen's submit handler (`handleSubmit`) and the planner
  screen's store handlers are methods on this class. The store transitions
  they make are pure functions, and lemmas are proved about them.

Modelling conventions:

- Timestamps are integers (milliseconds), passed in as `now`.
- Store-generated mission ids are passed in as `freshId`.
- The hunter's answer to the confirmation dialog is passed in as `confirmed`.
- Whether a write batch commits is passed in as `committed`. A batch is all-or-nothing.
- A single `updateDoc` on a document that does not exist fails, and nothing is written.
- The realtime listeners are the `Sync` method. It takes the order in which
  the store delivers the missions: newest first, each id once.

Reset and delete-account behave in a way worth noting. They build their
delete batch from the mission *view*, not from the store. A view in step with
the store empties the account (`Planner.ResetInStepClears`,
`Planner.DeleteAccountThenRegister`). If the account is deleted before the
missions listener has delivered anything, the missions stay in the store.
The next registration of the same name then takes them over
(`Planner.DeleteBeforeSync`).

Two behaviours of the code are worth stating:

- Toggling a completed mission twice does not restore its original
  completion time. The second completion stamps a new time
  (`Quests.ToggleTwice`, `Quests.ToggleTwiceLosesCompletionTime`).
- A mission's points come from its `stars` field, with a missing or zero
  value counting as one star (`t.stars || 1`). Nothing else about the
  mission affects the points.

## Model

| member | source | states |
|---|---|---|
| Identity.Normalize | src/App.jsx:226-227 | the account id of a name contains no whitespace and no upper-case letter |
| Identity.Trim | src/App.jsx:227 | `trim`: the result neither starts nor ends with whitespace |
| Identity.TrimCutsSpace | src/App.jsx:227 | `trim` keeps a contiguous slice of the name, and everything it drops before and after is whitespace |
| Identity.Lower | src/App.jsx:227 | `toLowerCase` keeps the length, lowers each character and leaves no upper-case letter |
| Identity.Hyphenate | src/App.jsx:227 | replacing whitespace runs leaves no whitespace and adds no upper-case letter |
| Identity.HyphenateJoinsWords | src/App.jsx:227 | on a trimmed string, `replace(/\s+/g, '-')` joins the whitespace-separated words with exactly one `-` between neighbours |
| Identity.NormalizeJoinsWords | src/App.jsx:227 | the account id is the lower-cased words of the name joined by single hyphens |
| Identity.NormalizeIdempotent | src/App.jsx:227 | normalising an account id again gives the same id |
| Identity.NormalizeTrim | src/App.jsx:227 | the trimmed display name stored at registration normalises to the same id as the typed name |
| Identity.NormalizeEmpty | src/App.jsx:227 | the id is empty exactly when the name is blank |
| Identity.NormalizeTwoWords | src/App.jsx:227 | a name of two words with any padding and gap becomes `word1-word2`, lower-cased |
| Identity.SuperHunterKey | src/App.jsx:226-227 | `"  Super Hunter  "` becomes `"super-hunter"` |
| Identity.AshKetchumKey | src/App.jsx:227 | `"Ash Ketchum"` becomes `"ash-ketchum"` |
| Identity.AshKetchumRetypedKey | src/App.jsx:227 | `" ash   KETCHUM "` becomes the same id, `"ash-ketchum"` |
| Quests.DueField | src/App.jsx:462 | an empty due-date input is stored as null, and any other input is stored as typed |
| Quests.NewQuest | src/App.jsx:456-469 | a new mission holds the form's fields, is open, has no completion time and carries its creation time |
| Quests.Edited | src/App.jsx:456-466 | an edit writes the form's fields and `updatedAt`; completion flag, completion time and creation time are untouched, and the completion invariant is kept |
| Quests.Toggled | src/App.jsx:476-482 | the toggle sets the flag it is given, sets a completion time exactly when completing, and changes no other field |
| Quests.ToggleTwice | src/App.jsx:476-482 | toggling twice restores the flag; an open mission comes back unchanged, and a completed one comes back with the second completion's time |
| Quests.ToggleTwiceLosesCompletionTime | src/App.jsx:476-482 | a concrete mission whose completion time differs after two toggles |
| Quests.EditToggleCommute | src/App.jsx:456-482 | an edit and a toggle write disjoint fields, so their order does not matter |
| Quests.EditForm | src/App.jsx:488-495 | the edit form copies name, details and stars, shows the default icon for a missing one, and an empty due date for a missing one |
| Quests.SaveUnchangedEdit | src/App.jsx:456-495 | opening a mission for editing and saving the form unchanged only stamps `updatedAt`, when the mission has an icon, a non-empty due date and a selectable star count |
| Quests.SaveEditFillsIcon | src/App.jsx:456-495 | a mission without an icon gets the default icon when saved from the edit form |
| Quests.TaskIds | src/App.jsx:432 | the ids of a mission list: exactly the ids of its members; `Planner.QueueTaskDeletes` proves the batch loop queues this set |
| Progress.StarValue | src/App.jsx:505 | `stars \|\| 1` is at least one, and equals the star count when that is set |
| Progress.PointsAreTenPerCompletedStar | src/App.jsx:505 | the loop's total is ten times the stars of the completed missions; open missions count nothing |
| Progress.CompletedOnly | src/App.jsx:505 | keeps exactly the completed missions |
| Progress.Tier | src/App.jsx:90-97 | the title tier of a rank is the number of thresholds 2, 5, 10, 20, 50 it has reached |
| Progress.RankTitle | src/App.jsx:90-97 | `getRankTitle` returns the title of the rank's tier |
| Progress.ComputeStats | src/App.jsx:503-508 | the loop total equals the points; the rank is at least 1, the progress is below 100, and the points are `(rank-1)*100 + progress`; the title is the rank's tier title. An empty list gives 0 points, rank 1 and progress 0 |
| TaskFilter.ContainsAt | src/App.jsx:511 | `includes` holds exactly when the search text occurs at some position of the name |
| TaskFilter.FilterTasks | src/App.jsx:510-514 | the filtered list is an order-preserving subsequence of the missions, and holds exactly those whose lower-cased name contains the lower-cased search and that belong to the tab |
| TaskFilter.FilterKeepsEveryMatch | src/App.jsx:510-514 | the filtered list holds every occurrence of each matching mission as often as the mission list does, and no other mission |
| TaskFilter.ShowAll | src/App.jsx:510-514 | an empty search on the "all" tab shows every mission, in order |
| TaskFilter.TabsPartition | src/App.jsx:512 | for any search, the "active" and "completed" tabs together hold as many missions as the "all" tab |
| Icons.StripIconSuffix | src/App.jsx:114 | a case-insensitive `_Icon.webp` suffix is cut from the end of the file name, and any other name is left as it is |
| Icons.Spaced | src/App.jsx:114 | every underscore becomes a space and every other character is kept, so no underscore is left |
| Icons.DisplayName | src/App.jsx:114 | a display name contains no underscore and copies the file name's other characters from its start |
| Icons.DisplayNameIdempotent | src/App.jsx:114 | deriving a display name from a display name changes nothing |
| Icons.IconsOf | src/App.jsx:110-115 | every icon of a listing is a `.webp` file, and its display name is derived from its file name |
| Icons.IconsOfKeepsImages | src/App.jsx:111 | a file name becomes an icon exactly when it is listed and ends with `.webp` in any letter case |
| Icons.IconCatalogue | src/App.jsx:104-128 | a failed listing gives the three fallback icons; a successful one gives the icons of exactly its `.webp` files |
| Icons.FallbackIsDerived | src/App.jsx:114-119 | the fallback's display name for `Great_Jagras_Icon.webp` is the one the derivation gives |
| Deadline.Classify | src/App.jsx:660-667 | a card is completed, overdue or near due exactly when the source's `isCompleted`, `isOverdue` and `isNearDue` conditions say so |
| Planner.AccountAt | src/App.jsx:401-409 | reading an id that has no documents gives no profile and no missions |
| Planner.Registered | src/App.jsx:269-273 | registration stores the trimmed name and the chosen avatar under the name's id, keeps that id's missions and every other account, and keeps the store valid |
| Planner.TaskWritten | src/App.jsx:464-469 | writing a mission changes that mission only; the profile and other accounts are kept, and a consistent mission keeps the store valid |
| Planner.TasksRemoved | src/App.jsx:439-443 | a batch of deletes removes exactly the given ids from the account's missions; the remaining missions, the profile and other accounts are kept |
| Planner.AccountRemoved | src/App.jsx:428-435 | deleting the account removes the profile and exactly the given missions; other accounts are kept |
| Planner.AvatarSet | src/App.jsx:139-144 | the settings change only the profile's avatar; its name and creation time stay |
| Planner.View | src/App.jsx:407-409 | the view lists each delivered id with its stored mission, in the delivered order; `Planner.ViewInStep` proves it shows exactly the stored missions |
| Planner.ViewInStep | src/App.jsx:406-409 | a delivered listing shows exactly the stored missions |
| Planner.QueueTaskDeletes | src/App.jsx:432 | the batch loop queues a delete for exactly the ids of the snapshot |
| Planner.Planner.constructor | src/App.jsx:387-392 | a stored non-empty id resumes its session; there is no view yet |
| Planner.Planner.Sync | src/App.jsx:395-416 | the listeners deliver the current account's profile and missions, newest first |
| Planner.Planner.Resolve | src/App.jsx:251-286 | a blank name does nothing; an id with a profile logs in without writing; any other id registers the trimmed name with the chosen avatar; in both cases the session moves to the id |
| Planner.Planner.SaveTask | src/App.jsx:452-474 | no name or no hunter writes nothing; an edit merges the form into an existing mission and leaves a missing one alone; a new mission is added open |
| Planner.Planner.ToggleTask | src/App.jsx:476-482 | the flag is set to the negation of the one the view shows, with a completion time when completing; in step with the store this flips it; a missing mission or hunter writes nothing |
| Planner.Planner.DeleteTask | src/App.jsx:484-486 | a confirmed delete removes that one mission; otherwise nothing changes |
| Planner.Planner.UpdateAvatar | src/App.jsx:447-450 | only the current profile's avatar changes; without a hunter or a profile nothing is written |
| Planner.Planner.Logout | src/App.jsx:420-426 | the session and the views are cleared, and the store is untouched |
| Planner.Planner.ResetProgress | src/App.jsx:439-445 | a committed batch removes exactly the view's mission ids and keeps the profile; a failed one changes nothing |
| Planner.Planner.DeleteAccount | src/App.jsx:428-437 | a committed batch removes the view's missions and the profile and logs out; a failed one changes nothing |
| Planner.ResetInStepClears | src/App.jsx:439-443 | a reset from a view in step with the store leaves the account with no missions and its profile |
| Planner.StaleResetKeeps | src/App.jsx:442 | a mission missing from the view survives the reset unchanged |
| Planner.DeletedNameIsFree | src/App.jsx:262-273 | after the account is deleted its id has no profile, so the next submission of the name takes the register branch |
| Planner.ReturningHunter | src/App.jsx:251-286 | register, log out and retype the name differently: the second submission logs into the same account, which keeps the first name and avatar |
| Planner.DeleteAccountThenRegister | src/App.jsx:428-437 | log in, receive the missions, delete the account, submit the name again: it registers a fresh account with no missions |
| Planner.DeleteBeforeSync | src/App.jsx:428-437 | delete the account before any missions arrive: the missions stay and the next registration of the name takes them over |

## Left out

- Rendering, modals, tabs and the React hook mechanics (`useState`, `useEffect`, `useMemo`) are presentation and are not modelled.
- Firebase set-up, the environment checks, Analytics and anonymous sign-in are foreign SDK calls with no logic of the planner in them.
- The realtime listeners are asynchronous. The model delivers their result through `Planner.Planner.Sync` whenever a caller asks, and it does not model delivery timing or interleaving.
- The order of the listing is a parameter of `Sync`: the store's `orderBy('createdAt', 'desc')` is a query the model does not reimplement, and the model does not fix an order among missions with equal creation times.
- The icon listing request is network I/O. Its outcome is the parameter of `Icons.IconCatalogue`: the listing's names, or a failure.
- The debounced "account found" preview on the login screen is timing behaviour. The submission re-reads the store and decides for itself.
- Browser dialogs (`confirm`, `alert`) and scrolling are not modelled. The answer to the delete confirmation is a parameter.
- Clocks and date formatting are not modelled. Times are integers passed in as `now`. In `Deadline`, the parsed due instant is a parameter, and None stands for a missing or unparsable date.
- Identity.Normalize: whitespace and case are ASCII only. JavaScript's `\s` and `toLowerCase` follow Unicode, and the model does not.
- Icons.IsImage: the letter case of the file extension is compared in ASCII only.
- Star counts are the integer the 1..9 selector gives. `parseInt` is not modelled. A stored falsy count (missing, `NaN` or 0) is `stars == 0`.
- The name-length limits are a precondition of `Planner.Planner.Resolve` (`minLength`/`maxLength` of the name field).
- Failures of single reads and writes are not modelled. A network error on the login screen's `getDoc` or `setDoc` makes the source alert and leave the session unset. A failed `addDoc` or `updateDoc` when saving a mission is only logged. The toggle, delete, avatar and reset writes leave a failure unhandled. The model covers two failures: an update of a missing document, which writes nothing, and a failed batch commit, which writes nothing.
- Planner.Planner.Resolve: hunter ids are modelled as opaque keys. The store builds document paths from the id, splits them at `/` and rejects reserved ids such as ones wrapped in `__`. None of this is modelled. In the source, the path lookup throws before the `try` block when the id holds an odd number of inner `/` (`"ab/c"`) or contains `//`. Nothing is written, no session is set and the submit button stays in its busy state. An id with an even number of inner `/` (`"a/b/c"`) gives a nested account that is kept apart from every other, as the model's separate key does. An id with a leading or trailing `/` reaches the account of the id without it. The model instead registers or logs in under the id exactly as normalised, and its store invariant assumes ids that the store accepts as one path segment.
- TaskFilter.FilterTasks: the search compares lower-cased text with ASCII case folding only. JavaScript's `toLowerCase` also lowers non-ASCII letters, so the source finds `"ÑANDÚ"` when searching for `"ñandú"` and the model does not.
- Two registrations of the same id racing each other are a concurrency problem. The model is sequential.
- The form state after saving (reset form, edit mode cleared) and the scroll and form display of `startEditTask` are view state with no effect on the store. The form contents `startEditTask` fills in are modelled (`Quests.EditForm`).
