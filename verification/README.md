# Miriway: workspaces, their replication, settings and shell components

A model in Dafny of four parts of `miriway-shell` that work together, with proofs of what they
keep and achieve over every input, every run and every interleaving. `dafny verify dfyconfig.toml`
checks all of it.

**Dynamic workspaces** (`Windows`, `Desk`, `DeskInvariant`, `DeskTheorems`, `DeskAnswers`, `WorkspaceManager`).
An ordered list of workspaces, a cursor on the active one, windows in trees filed in workspaces,
a hidden flag with a saved state per window, and a table of remembered focus. `Desk` gives every
command as a function from one desk to the next; the class `WorkspaceManager` performs the commands
by loops and updates, pass by pass, and is proved to do exactly that, and to show and hide in the
right order. `DeskAnswers` says what each command does in terms of the desk before and after it alone.

**ext-workspace-v1** (`Hooks`, `Wire`, `Replica`, `Protocol`, `StateEvents`, `Batches`,
`ExtWorkspace`, `Composition`, `Races`).
The window manager's thread updates a shared map, releases the lock and queues a notification; the
Wayland loop runs the queue for every bound client and serves binds at any moment. A client is what
it was sent: a trace of events, from which it forms a picture. The steps may interleave in any way.
`StateEvents` is about which handles have been sent a state, `Batches` about what a client sees at each `done`,
and `Races` has runs that show what meets a client that binds, or acts, or looks, while notifications are under
way. `Composition` joins all this to the workspace machine.

**Settings** (`Lines`, `Settings`, `SettingsTheorems`, `Documentation`, `SettingsFiles`, `SettingsAnswers`,
`SettingsMigration`). Migration of options from the `.config` file by insertion in place, and the
self-documenting pass after it, on lines and on file contents. `SettingsAnswers` says what is written in terms
of the lines of the two files and the rows of the table alone.

**Shell components** (`Supervision`, `SupervisionTheorems`, `ChildControl`). The restart throttle,
with an explicit clock in real seconds of which the source sees whole ones.

`Docking` has the widths of a window docked again and again; `Wrappers` and `Sequences` are helpers.

## What the surroundings are taken to do

- Adding a tree to a workspace, or removing it, concerns the whole tree of parents and children and
  does nothing without a window; adding tells the manager of the windows newly added. A child window
  is filed where its parent is when it is created; trees do not change otherwise, except that closing
  a window makes its children tops of their own trees. Window and workspace identities are fresh.
- A tree is wholly application-layer (which includes always-on-top) or wholly shell-layer.
- The focused window is not one the manager hides. Focus may move whenever a window is hidden or
  shown; it is therefore asked for at each command, and in a raise at each workspace visited.
- A workspace that a client asks for is still listed: the source does not check its search for it
  (`miriway_workspace_manager.cpp:45`). `ListedUnlessDoomed` says exactly when that holds, and
  `DoomedHandle` is a run on which it does not. Nothing of
  the kind is assumed of a raised window (`:255`): the source searches only for the workspaces of a
  hidden one, and those are listed (`HiddenIsListed`).
- Window-management commands are serialised, and the Wayland loop's queue is first in, first out.
- The clock does not go back, timers do not expire early, and a child's pid is not one still registered.

## Where the code and its documentation, or its intent, part

- `erase_if_empty` uses the list iterator after erasing it (`miriway_workspace_manager.cpp:145-146`);
  the model saves the workspace first, which is what the destroy notification is about.
- A handle that a queued notification creates is sent no state until its workspace is activated or
  deactivated, while the protocol promises one on creation (`wayland-protocols/ext-workspace-v1.xml:326-336`).
  `CreationWithoutState` is a run on which that happens, `QueuedCreationIsUntold` says that it always does at the
  end of such a batch, and `UntoldIff` and `UntoldExactlyIf` say exactly for how long, for one client and over
  runs. On a desk every workspace is activated as it is made, so that `DrainedClientsAreTold` holds at every
  command boundary: every workspace's first handle has its state, and a second handle, which a bind between a
  creation and its notification gives, never gets one.
- A switch is two notifications and each closes a batch of its own, while `done` is there to let changes of
  several handles be seen as one (`wayland-protocols/ext-workspace-v1.xml:91-104`). `NoneActiveAtDone` is a served
  run on which a client sees no active workspace at a `done`; `OneActiveIffSettled` says exactly at which points of
  the notifications there is one, and `OneActiveAtDoneIff` at which `done`, for a client that has caught up: for
  which everything under way when it bound has been carried out. Such a client always shows a past of the map
  (`ClientsShowThePast`); one that binds with nothing under way has caught up from the start.
- A client that has not caught up is told again what its snapshot had anticipated (`ClientsAreToldSince` says
  exactly what it has been told). It may see two active workspaces at a `done` where the map had one
  (`TwoActiveAtDone`), and show what the map never was (`NeverAPast`).
- The snapshot on bind comes in the order of the source's map, which is keyed by pointers
  (`miriway_ext_workspace_v1.cpp:125` and `:375`), and handles are numbered in that order. `BindsInOrderIff` says
  exactly when that is the window manager's order, and `BoundOutOfOrder` is a run on which it is not.
- A window on top is in no workspace, which keeps it shown on all of them, but a Shift command files the focused
  tree whatever its layer (`miriway_workspace_manager.cpp:212-213`), and the next switch hides it:
  `OnTopIsHiddenOnRun` is such a run, and `UnfiledStaysIff` and `UnfiledOnRunIff` say exactly when a window that
  is filed nowhere stays so, and shown.
- A raise, and closing a window, can leave an inactive workspace without windows: `RaiseLeavesEmptyOnRun`
  and `CloseLeavesEmptyOnRun` are such runs, `RaiseAddsNoEmptyIff` and `CloseAddsNoEmptyIff` give the exact
  conditions, `StepAddsNoEmptyIff` those of every command, and `WorkspacesBoundedIfSpared` bounds the list on
  all runs that meet them.
- An unterminated last line of the settings file is joined to the first line of documentation:
  see `DocumentedFileLinesIff` and `UnterminatedValueIsSpoilt`. `SecondStartupIsIdleUnterminated` says exactly when
  a second startup leaves it at that.
- An attribute with an empty list of presets is documented anew at every startup, unless the settings
  mention it or the `.config` file sets it: see `DocumentingIsIdempotentIff` and `StartupIsIdempotentIff`.

## Model

| member | source | states |
|---|---|---|
| Windows.Hidden | miriway_workspace_manager.cpp:150-164 | Hiding marks the window and keeps the state the client thinks it has |
| Windows.Shown | miriway_workspace_manager.cpp:166-178 | Showing unmarks the window and gives that state back |
| WorkspaceManagement.WorkspaceManager.constructor | miriway_workspace_manager.cpp:34-52 | Starts with one fresh, active, announced workspace, which satisfies the invariant |
| WorkspaceManagement.WorkspaceManager.AppendNewWorkspace | miriway_workspace_manager.cpp:126-132 | Appends a fresh workspace, moves the cursor there, announces and activates it |
| WorkspaceManagement.WorkspaceManager.EraseIfEmpty | miriway_workspace_manager.cpp:134-148 | The loop finds out whether an application window is left; if not the workspace and its remembered focus go, and its destruction is announced |
| WorkspaceManagement.WorkspaceManager.ApplyWorkspaceHiddenTo | miriway_workspace_manager.cpp:150-164 | The in-place update is the hiding of that one window, once |
| WorkspaceManagement.WorkspaceManager.ApplyWorkspaceVisibleTo | miriway_workspace_manager.cpp:166-178 | The in-place update is the showing of that one window, once |
| WorkspaceManagement.WorkspaceManager.ShowRemembered | miriway_workspace_manager.cpp:193-210 | Makes the table entry it looks up, shows the remembered window only if it is still filed in the target, and refocuses it if a shell window had focus |
| WorkspaceManagement.WorkspaceManager.HideApplicationsIn | miriway_workspace_manager.cpp:223-238 | Hides exactly the application windows of the workspace but the given one, and says whether that one is to be hidden |
| WorkspaceManagement.WorkspaceManager.ChangeActiveWorkspace | miriway_workspace_manager.cpp:180-247 | The four passes amount to one transit of every window; the remembered window is shown first, and given focus exactly if a shell window had it; nothing is shown or focused once hiding began, the focused window is hidden last, and every change of visibility is asked of the toolkit |
| WorkspaceManagement.PassesMakeTransit | miriway_workspace_manager.cpp:193-242 | Show the remembered, move the tree, show all here, hide all there, hide focus: as one pointwise change, whatever stale entry was remembered |
| WorkspaceManagement.WorkspaceManager.LeaveFor | miriway_workspace_manager.cpp:66-71 | The common tail of the commands, with its order of showing and hiding |
| WorkspaceManagement.WorkspaceManager.WorkspaceBegin | miriway_workspace_manager.cpp:59-74 | Goes to the first workspace, or stays, showing and hiding in the order of a switch, and keeps the invariant |
| WorkspaceManagement.WorkspaceManager.WorkspaceEnd | miriway_workspace_manager.cpp:76-89 | Goes to a workspace appended for the purpose, showing and hiding in the order of a switch, and keeps the invariant |
| WorkspaceManagement.WorkspaceManager.WorkspaceUp | miriway_workspace_manager.cpp:91-106 | Goes to the previous workspace, or stays, showing and hiding in the order of a switch, and keeps the invariant |
| WorkspaceManagement.WorkspaceManager.WorkspaceDown | miriway_workspace_manager.cpp:108-124 | Goes to the next workspace, appending one at the end of the list, showing and hiding in the order of a switch, and keeps the invariant |
| WorkspaceManagement.WorkspaceManager.ActivateForClient | miriway_workspace_manager.cpp:38-50 | A client's request goes to the workspace asked for without taking a window along, showing and hiding in the order of a switch, and keeps the invariant |
| WorkspaceManagement.WorkspaceManager.ActivateWorkspaceContaining | miriway_workspace_manager.cpp:249-258 | Visits the workspaces of a window in turn, each a switch, a single one in the order of a switch, and keeps the invariant |
| WorkspaceManagement.WorkspaceManager.AdviseAddingToWorkspace | miriway_workspace_manager.cpp:260-277 | Windows added to the active workspace are shown, to another one hidden |
| WorkspaceManagement.WorkspaceManager.AdviseNewWindow | miriway_workspace_manager.cpp:304-315 | A child of a hidden window is hidden; a window without parent joins the active workspace alone |
| WorkspaceManagement.WorkspaceManager.NewWindow | miriway_workspace_manager.h:135-139 | Creation keeps the invariant: a child is filed and hidden as its parent is |
| DeskTheorems.NotifiedFilingAgrees | miriway_workspace_manager.cpp:260-309 | A child of an application window ends hidden or shown alike, whether or not its filing was notified before advise_new_window |
| WorkspaceManagement.WorkspaceManager.HandleModifyWindow | miriway_workspace_manager.h:148-159 | State and size requests to a hidden window are not passed on and change nothing; all else is passed on unchanged |
| WorkspaceManagement.WorkspaceManager.HandleRaiseWindow | miriway_workspace_manager.h:161-168 | Raising a hidden window visits its one workspace, showing and hiding in order; raising any other window does nothing here |
| WorkspaceManagement.WorkspaceManager.ToggleAlwaysOnTop | miriway_policy.cpp:121-153 | The tree leaves or joins the active workspace as the window changes layer, and the invariant holds |
| DeskInvariant.PutOnTopKeeps | miriway_policy.cpp:131-139 | Taking a focused window's tree out of the workspace neither hides nor splits any tree |
| DeskInvariant.TakeDownKeeps | miriway_policy.cpp:140-148 | Nor does putting it back give any window a second workspace |
| DeskInvariant.StepKeepsInv | miriway_workspace_manager.cpp:38-148 | Every command keeps the whole invariant: list, filing, visibility, trees, identities, remembered focus, notifications |
| DeskInvariant.RunKeepsInv | miriway_workspace_manager.cpp:34-124 | So does every run |
| DeskInvariant.HiddenIsListed | miriway_workspace_manager.cpp:249-258 | A hidden window is an application window whose workspaces are listed, so the search for them succeeds |
| DeskTheorems.VisibilityOnEveryRun | miriway_workspace_manager.cpp:215-242 | On every run an application window is hidden exactly when the workspace that holds it is not the active one, and it is in one workspace at most, a listed one |
| DeskTheorems.ShellNeverHidden | miriway_workspace_manager.cpp:215-242 | On every run a shell window is shown, wherever it is filed |
| DeskTheorems.MirrorOnEveryRun | miriway_ext_workspace_v1.cpp:130-179 | On every run the mirrored map holds exactly the listed workspaces, only the active one marked, after a lawful history of notifications |
| DeskTheorems.AppendingMarksTwo | miriway_workspace_manager.cpp:128-131 | While a workspace is being appended exactly two are marked active, the old one and the new one |
| DeskTheorems.DestroyedWhileInactive | miriway_workspace_manager.cpp:142-147 | On every run a workspace is destroyed only while it is mirrored and not marked active |
| DeskTheorems.DestroyedForGood | miriway_workspace_manager.cpp:142-147 | And no later notification is about it |
| DeskTheorems.ListedWereActivated | miriway_workspace_manager.cpp:128-131 | On every run each listed workspace has been announced as active at some time |
| DeskTheorems.GoSwitches | miriway_workspace_manager.cpp:59-124 | Every switch command stays put or is one passage from the active workspace to another, erasing the one left only if no application window remains |
| DeskAnswers.GoLeadsTo | miriway_workspace_manager.cpp:38-124 | Begin leads to the first workspace, end to a fresh last one, up and down to the neighbours, at the ends to the first and to a fresh one, a client's request to the one requested; nothing else is appended, and staying changes nothing |
| DeskAnswers.GoKeepsMemory | miriway_workspace_manager.cpp:134-147 | Of the remembered focus a switch changes the entry of the workspace left, if the focused window stays behind or it is erased, and makes an empty one for the workspace looked up; all others survive |
| DeskAnswers.RaiseKeepsMemory | miriway_workspace_manager.cpp:193-258 | So does a raise, which erases nothing |
| DeskAnswers.TreeIsKin | miriway_workspace_manager.cpp:212-213 | A window's tree is everything that has an ancestor in common with it |
| DeskAnswers.ShiftTakesKin | miriway_workspace_manager.cpp:212-213 | With Shift exactly the windows that have an ancestor in common with the focused one pass from the one workspace to the other |
| DeskAnswers.OpenedIs | miriway_workspace_manager.h:135-139 | A new window has the layer and state it asked for, is filed and hidden as its parent is, or else shown in the active workspace alone, and nothing else changes |
| DeskAnswers.ModifiedIs | miriway_workspace_manager.h:148-159 | A request for a state is granted to a shown window and ignored of a hidden one, and nothing else changes |
| DeskAnswers.ToggledIs | miriway_policy.cpp:121-153 | A toggle swaps the two application layers of the focused window and changes no other layer |
| DeskTheorems.EffectiveStateSurvives | miriway_workspace_manager.cpp:150-178 | Over any run, a window's own state changes only by a request made while it is shown |
| DeskTheorems.SwitchConservesOrder | miriway_workspace_manager.cpp:59-148 | Survivors keep their order, a newcomer is fresh and last, a casualty is the workspace left and holds no application window |
| DeskTheorems.SwitchConservesFiling | miriway_workspace_manager.cpp:212-213 | Only the tree that Shift takes changes its filing, to the new active workspace alone; no application window is orphaned |
| DeskTheorems.SwitchShowsOnlyItsOwn | miriway_workspace_manager.cpp:193-221 | A switch brings out only windows of the workspace it leads to, even with stale remembered focus |
| DeskTheorems.RaiseShowsOnlyItsOwn | miriway_workspace_manager.cpp:193-258 | So does a raise |
| DeskTheorems.SwitchRemembersFocus | miriway_workspace_manager.cpp:240-246 | Leaving without Shift, with focus on an application window filed there, keeps the workspace and remembers the window |
| DeskTheorems.SwitchAddsNoEmpty | miriway_workspace_manager.cpp:38-148 | No switch adds an inactive workspace without application windows |
| DeskTheorems.WorkspacesBounded | miriway_workspace_manager.cpp:134-148 | Without such workspaces the list exceeds the filed application windows by one at most |
| DeskTheorems.WorkspacesBoundedIfSpared | miriway_workspace_manager.cpp:38-148 | That bound holds on every run whose raises and closures empty no workspace |
| DeskTheorems.WorkspacesBoundedOnRun | miriway_workspace_manager.cpp:38-148 | In particular on every run without raises and closures |
| DeskTheorems.RaiseMayLeaveEmpty | miriway_workspace_manager.cpp:249-258 | A raise leaves the old workspace listed, empty exactly if it held no application window, and empties no other |
| DeskTheorems.RaiseAddsNoEmptyIff | miriway_workspace_manager.cpp:249-258 | A raise adds no empty inactive workspace exactly if the window was not hidden or the workspace left holds an application window |
| DeskTheorems.StepAddsNoEmptyIff | miriway_workspace_manager.cpp:38-148 | Of all commands exactly such raises, and such closures, and everything else, add none |
| DeskTheorems.CloseAddsNoEmptyIff | miriway_workspace_manager.cpp:134-148 | Closing a window, which erases nothing, adds none exactly if it is not a hidden application window that is alone in its workspace |
| DeskTheorems.RaiseLeavesEmptyOnRun | miriway_workspace_manager.cpp:249-258 | A run whose raise leaves an empty inactive workspace |
| DeskTheorems.CloseLeavesEmptyOnRun | miriway_workspace_manager.cpp:134-148 | A run whose closure does |
| DeskTheorems.DownThenUp | miriway_workspace_manager.cpp:91-124 | Down then up restores list, cursor, filing, hidden flags and states if and only if the active workspace holds an application window and so does the next, if there is one |
| DeskTheorems.OnTopIsNowhere | miriway_policy.cpp:131-148 | Right after a toggle the whole tree is shown, and in no workspace if put on top, in the active one alone if taken down |
| DeskTheorems.UnfiledStaysIff | miriway_workspace_manager.cpp:212-213 | A window filed nowhere stays so exactly if the command is neither a Shift switch with focus in its tree nor a toggle that takes its tree down |
| DeskTheorems.UnfiledOnRunIff | miriway_workspace_manager.cpp:212-242 | Over a run it stays filed nowhere, and shown, exactly if no command of the run is one of those |
| DeskTheorems.OnTopIsHiddenOnRun | miriway_workspace_manager.cpp:212-242 | A run that ends with a window on top hidden |
| DeskTheorems.ToggleTwiceRestoresIff | miriway_policy.cpp:131-148 | Toggling twice restores every window if and only if the focused one was an ordinary one filed in the active workspace, or on top and filed nowhere, or a shell window |
| Wire.NothingAfterRemoval | wayland-protocols/ext-workspace-v1.xml:361-373 | In a legal trace no event refers to a removed handle |
| ExtWorkspace.ExtWorkspaceManagerV1.WorkspaceCreated | miriway_ext_workspace_v1.cpp:255-277 | A handle is announced with its capability to be activated, name, coordinates and group, numbered by its place in the list |
| ExtWorkspace.ExtWorkspaceManagerV1.WorkspaceMarked | miriway_ext_workspace_v1.cpp:279-301 | The search tells the first handle of the workspace its state, and nobody else |
| ExtWorkspace.ExtWorkspaceManagerV1.WorkspaceDestroyed | miriway_ext_workspace_v1.cpp:303-326 | The erase-and-renumber loop drops every entry of the workspace and says exactly what the specification says |
| ExtWorkspace.ExtWorkspaceManagerV1.OnDestroy | miriway_ext_workspace_v1.cpp:328-332 | The first entry with the handle is dropped, and nothing is sent |
| ExtWorkspace.ExtWorkspaceManagerV1.OnActivate | miriway_ext_workspace_v1.cpp:334-344 | Finds the workspace of a listed handle if that workspace still exists, and nothing otherwise |
| ExtWorkspace.ExtWorkspaceV1.OnWorkspaceCreate | miriway_ext_workspace_v1.cpp:130-139 | The map gains the workspace, not active, and a notification is due |
| ExtWorkspace.ExtWorkspaceV1.OnWorkspaceActivate | miriway_ext_workspace_v1.cpp:141-153 | A known workspace is marked active and a notification is due |
| ExtWorkspace.ExtWorkspaceV1.OnWorkspaceDeactivate | miriway_ext_workspace_v1.cpp:155-167 | A known workspace is marked hidden and a notification is due |
| ExtWorkspace.ExtWorkspaceV1.OnWorkspaceDestroy | miriway_ext_workspace_v1.cpp:169-179 | The map loses the workspace and a notification is due |
| ExtWorkspace.ExtWorkspaceV1.RunOnWaylandMainloop | miriway_ext_workspace_v1.cpp:403-461 | The due notification joins the queue at its end |
| ExtWorkspace.ExtWorkspaceV1.RunQueueHead | miriway_ext_workspace_v1.cpp:405-415 | The oldest notification is carried out for every bound client, each batch closed by done |
| ExtWorkspace.ExtWorkspaceV1.Bind | miriway_ext_workspace_v1.cpp:362-386 | A new client is sent the map as it stands, in the map's order |
| Replicas.DropIsSeen | miriway_ext_workspace_v1.cpp:303-326 | The loop's events are legal: group left before removal, no event for a removed handle |
| Replicas.DroppedNumbers | miriway_ext_workspace_v1.cpp:303-326 | After the loop every remaining handle was last announced under its new place |
| Replicas.HandleOk | miriway_ext_workspace_v1.cpp:255-326 | Every notification keeps the replica in order and ends its batch, coordinates being unique at done |
| Replicas.BoundOk | miriway_ext_workspace_v1.cpp:362-386 | So does the snapshot on bind |
| Replicas.ForgetKeepsNumbersIff | miriway_ext_workspace_v1.cpp:328-332 | A client's destroy request keeps the numbering exactly if the handle is not listed or is the last |
| Protocol.AbsorbsUpdate | miriway_ext_workspace_v1.cpp:130-179 | Whatever suffix of the queue is still to come, it changes nothing for someone who knows the map |
| Protocol.StatusHandled | miriway_ext_workspace_v1.cpp:255-326 | What one notification does to what a client has been told of each workspace: no handle, no state yet, or a state |
| Protocol.StatusBound | miriway_ext_workspace_v1.cpp:373-383 | A client that has just bound has been told the map, state and all, for every workspace |
| Protocol.StepKeepsOk | miriway_ext_workspace_v1.cpp:130-179 | Map updates, queueing, queue runs, binds and disconnects all keep the invariant |
| Protocol.ClientsConverge | miriway_ext_workspace_v1.cpp:362-461 | Under every interleaving each bound client, once the flow has drained, has handles for exactly the map's workspaces and their first handles active exactly as the map says |
| Protocol.ClientsNumbered | wayland-protocols/ext-workspace-v1.xml:284-305 | At all times name and coordinate of each handle are its place, live handles are those listed, each advertised as one that can be activated, in an announced group; the trace is legal and ends a batch |
| Protocol.BindsInOrderIff | miriway_ext_workspace_v1.cpp:373-383 | A client that binds with nothing under way is in the window manager's order exactly if the map's own order is that order |
| Protocol.BindsInOrder | miriway_ext_workspace_v1.cpp:373-383 | In particular if there is one workspace |
| Protocol.OrderSurvives | miriway_ext_workspace_v1.cpp:255-326 | Such a client lists the workspaces in that order whenever the flow drains, whoever else comes and goes |
| Protocol.ListedUnlessDoomed | miriway_ext_workspace_v1.cpp:334-344 | A listed handle names an existing workspace exactly if no destruction of it is under way |
| StateEvents.QueuedCreationIsUntold | miriway_ext_workspace_v1.cpp:255-266 | The first handle a queued notification gives a client of a workspace has no state at the done that follows |
| StateEvents.CreationWithoutState | miriway_ext_workspace_v1.cpp:448-461 | A run that ends with a drained client whose handle has no state |
| StateEvents.UntoldIff | miriway_ext_workspace_v1.cpp:279-301 | A handle that stays listed stays without a state exactly until its workspace is activated or deactivated |
| StateEvents.UntoldExactlyIf | miriway_ext_workspace_v1.cpp:362-461 | However a run goes on after a bind, a drained client misses a state exactly if the workspace was created after the bind and was never activated or deactivated |
| StateEvents.MarkedAreTold | miriway_ext_workspace_v1.cpp:279-301 | In every reachable state a drained client has the right state of every workspace ever activated or deactivated, and no handle but a workspace's first ever gets one |
| Batches.OneActiveIffSettled | miriway_workspace_manager.cpp:126-191 | At any point of the notifications of any run exactly one workspace is active exactly if no switch or append is half done there |
| Batches.NoneActiveOnRun | miriway_workspace_manager.cpp:185-187 | A run with a point at which none is |
| Batches.EveryRunIsAccounted | miriway_ext_workspace_v1.cpp:130-179 | In every state reached with a lawful history each notification received has been carried out or is under way, in order |
| Batches.ClientsAreToldSince | miriway_ext_workspace_v1.cpp:362-461 | Whatever was under way at the bind, a client has been told the map at the bind and then what has been carried out since |
| Batches.ClientsShowThePast | miriway_ext_workspace_v1.cpp:403-461 | Once all that was under way at its bind has been carried out, a client shows the map as it was after the notifications carried out so far |
| Batches.OneActiveAtDoneIff | wayland-protocols/ext-workspace-v1.xml:91-104 | At a done such a client sees exactly one workspace active exactly if those are settled |
| Races.NoneActiveAtDone | wayland-protocols/ext-workspace-v1.xml:91-104 | A served run on which a client that bound with nothing under way sees none active at a done |
| Races.TwoActiveAtDone | miriway_ext_workspace_v1.cpp:362-386 | A served run on which a client that has not caught up sees two active at a done although those carried out are settled |
| Races.NeverAPast | miriway_ext_workspace_v1.cpp:362-386 | A served run on which such a client shows two workspaces active that at no time both were |
| Races.DoomedHandle | miriway_ext_workspace_v1.cpp:334-344 | A served run on which a client lists a workspace that no longer exists |
| Races.BoundOutOfOrder | miriway_ext_workspace_v1.cpp:373-383 | A served run on which a client is given two workspaces in another order than the window manager's |
| Composition.EveryDeskCanBeServed | miriway_ext_workspace_v1.cpp:130-179 | The notifications of any run of commands can be served |
| Composition.ClientsFollowTheDesk | miriway_ext_workspace_v1.cpp:403-461 | End to end: after any commands and any interleaving, drained clients list exactly the listed workspaces, the active one alone active |
| Composition.DrainedClientsAreTold | wayland-protocols/ext-workspace-v1.xml:326-336 | At every command boundary a drained client has been sent the state of exactly the first handle of each listed workspace |
| Composition.ClientsFollowTheOrder | miriway_ext_workspace_v1.cpp:255-326 | And, if once in order, in the order the shortcuts walk them, while other clients come and go |
| Composition.QuietActivationIsSafe | miriway_ext_workspace_v1.cpp:334-344 | A handle a client lists may be activated exactly if no destruction of its workspace is under way |
| SettingsMigration.ReadSettings | miriway.cpp:278-293 | Reading line by line yields the lines and the keys with an active line |
| SettingsMigration.CleanValue | miriway.cpp:308-315 | Comment and trailing blanks are stripped |
| SettingsMigration.CollectOptions | miriway.cpp:302-319 | Going through the table by prefix finds what looking the line's key up finds, which `SettingIs` states in terms of the line |
| SettingsMigration.CollectValues | miriway.cpp:295-321 | All values for keys without an active line are collected, in key order |
| SettingsMigration.InsertEntry | miriway.cpp:331-345 | The values go right behind the first placeholder, in order, or nowhere |
| SettingsMigration.InsertEntries | miriway.cpp:325-346 | The insertions, one entry after the other in place, equal one pass over the original lines; the rest is left to append |
| SettingsMigration.AppendEntries | miriway.cpp:348-355 | One headed block of what is left |
| SettingsMigration.MigrateConfigToSettings | miriway.cpp:243-362 | The whole migration of one file, which is not rewritten without need |
| SettingsTheorems.ManyPassesAreOne | miriway.cpp:325-346 | Inserting into what earlier insertions left equals one pass over the original lines |
| SettingsTheorems.OnePlaceholder | miriway.cpp:331-335 | No line is the placeholder of two keys |
| SettingsTheorems.AssignmentIsNoPlaceholder | miriway.cpp:337-339 | No inserted line is a placeholder |
| SettingsTheorems.CollectedIs | miriway.cpp:295-321 | The collected map is sorted and holds, for each key without an active line, exactly its values |
| SettingsTheorems.ReadBack | miriway.cpp:278-355 | A reader finds every key's old values, or else exactly those of the .config file through any of its names; keys in no table row are unchanged |
| SettingsAnswers.CleanedIs | miriway.cpp:308-315 | A cleaned value is what stands before a comment and the blanks in front of it |
| SettingsAnswers.SettingIs | miriway.cpp:302-317 | A line sets a key to a value exactly if it starts with the name of a row of that key and `=`, the value being the cleaned rest and not empty |
| SettingsAnswers.ReadBackLines | miriway.cpp:278-355 | A key without an active line ends with the values of exactly those .config lines that set it, in file order |
| SettingsAnswers.ValuesFollowPlaceholder | miriway.cpp:331-342 | They stand directly behind its first placeholder, which follows what stood before it |
| SettingsAnswers.ValuesAreAppended | miriway.cpp:348-355 | Without a placeholder they stand in the one block at the end, which is headed by a blank line and the name of the .config file and is in the order of keys |
| SettingsAnswers.LessIs | miriway.cpp:295 | The order of keys is that of their first difference, a prefix coming first |
| SettingsTheorems.ValuesAreClean | miriway.cpp:307-317 | Migrated values are non-empty, without comment and without trailing blanks |
| SettingsTheorems.MigrationKeepsLines | miriway.cpp:357-361 | The original lines remain, in order |
| SettingsMigration.DocumentingStore.constructor | miriway_documenting_store.cpp:22-53 | The scan finds every key mentioned, active or commented out |
| SettingsMigration.DocumentingStore.AddAttribute | miriway_documenting_store.cpp:56-144 | A key not mentioned gets its description, its commented line with the preset, if any, and a blank |
| SettingsMigration.DocumentingStore.AddListAttribute | miriway_documenting_store.cpp:146-222 | The same for a list of presets, a line each |
| SettingsMigration.DocumentAll | miriway_documenting_store.cpp:22-222 | All registrations through one store append exactly the lines of those keys that the file did not mention |
| Documentation.DocumentationKeepsValues | miriway_documenting_store.cpp:56-222 | Documentation changes no active value |
| SettingsAnswers.UnmentionedIsDocumented | miriway_documenting_store.cpp:56-222 | Every attribute not mentioned gets its description, a commented line for its preset or for each preset of a list in order, and a blank, behind the file and after the attributes registered before it |
| SettingsAnswers.MentionedIsNotDocumented | miriway_documenting_store.cpp:56-222 | Nothing is written exactly if all are mentioned |
| SettingsAnswers.StartupDocumentsLast | miriway.cpp:486-495 | The migrated lines come first, and behind them what is documented |
| Documentation.DocumentingIsIdempotentIff | miriway_documenting_store.cpp:146-158 | Documenting twice is documenting once exactly if each empty preset list belongs to a key already mentioned |
| Documentation.SecondMigrationIsIdle | miriway.cpp:278-323 | A second migration changes nothing, whatever was documented in between |
| Documentation.MigratedMentions | miriway.cpp:325-355 | Of plain keys, the migrated settings mention exactly those mentioned before and those the .config file sets |
| Documentation.StartupIsIdempotentIff | miriway.cpp:488-495 | Migrating and documenting is idempotent exactly if each attribute with an empty preset list is mentioned by the settings or set by the .config file |
| SettingsFiles.DocumentedFileLinesIff | miriway_documenting_store.cpp:47-51 | The appended documentation leaves the lines alone exactly if the file was terminated or nothing was appended |
| SettingsFiles.UnterminatedValueIsSpoilt | miriway_documenting_store.cpp:47-61 | Otherwise an assignment in the last line takes the first line of documentation into its value, and its key's other values are as before |
| SettingsFiles.SecondStartupIsIdle | miriway.cpp:486-495 | On a terminated file a second startup leaves every byte, exactly under that condition |
| SettingsFiles.SecondStartupIsIdleUnterminated | miriway_documenting_store.cpp:22-61 | On any other file too exactly under that condition, but for keys that the last line and the documentation glued to it happen to mention |
| ChildControl.ChildControl.ShellLaunch | miriway_child_control.cpp:151-223 | Throttles, gives up or launches as the specification says |
| ChildControl.ChildControl.FireTimer | miriway_child_control.cpp:199-211 | The handler counts and launches, or stays armed if the predicate no longer holds |
| ChildControl.ChildControl.ReapAll | miriway_child_control.cpp:100-130 | The reaping loop carries out the exits one after the other, relaunching as it goes; what each leads to is `FailureIsFollowed` |
| ChildControl.ChildControl.Insert | miriway_child_control.cpp:75-79 | A pid is registered unless it is already |
| ChildControl.ChildControl.LaunchShell | miriway_child_control.cpp:236-244 | A new instance is launched under supervision, and the invariant holds |
| ChildControl.ChildControl.Shutdown | miriway_child_control.cpp:87-95 | Nothing is registered any more; armed timers remain |
| Supervision.StepKeepsOk | miriway_child_control.cpp:66-223 | Every step keeps the record of lives in order and each component registered once or waiting or neither |
| SupervisionTheorems.OneThingAtATime | miriway_child_control.cpp:66-131 | On every run a component is in exactly one of three conditions, running under a single pid, waiting on its timer, or stopped |
| SupervisionTheorems.FailureIsFollowed | miriway_child_control.cpp:100-223 | A failure, by a code or a signal other than zero, is followed by a launch at once after a life of more than three seconds, by a wait of three seconds for each short life in a row up to three, and otherwise by the end |
| SupervisionTheorems.TimerIsFollowed | miriway_child_control.cpp:199-211 | An expired timer launches with the counter one up if the predicate holds, and else changes nothing |
| SupervisionTheorems.FirstLaunchIsFollowed | miriway_child_control.cpp:164-223 | A first launch succeeds at once, except in the first seconds of the clock, when it waits |
| SupervisionTheorems.OthersUntouched | miriway_child_control.cpp:100-223 | What happens to one component leaves the others alone |
| SupervisionTheorems.HelpersAreOnTheirOwn | miriway_child_control.cpp:113-121 | The end of a child without supervision, or not registered, concerns no component |
| SupervisionTheorems.ShutdownForgets | miriway_child_control.cpp:87-95 | After shutdown no component is running as far as the table goes, and components and timers are as they were |
| SupervisionTheorems.LaunchesAreSpaced | miriway_child_control.cpp:154-191 | Launches are three seconds apart, the counter stays within 0..3, restarts follow abnormal exits and wait three seconds for each count plus one after a short life |
| SupervisionTheorems.NoFiveShortLives | miriway_child_control.cpp:168-177 | Of five consecutive launches one of the first four lives exceeded three seconds |
| SupervisionTheorems.RestartsHaveCauses | miriway_child_control.cpp:100-211 | On every run each launch but the first follows an abnormal exit of the component, the predicate having held then and, after a wait, when the timer expired |
| SupervisionTheorems.FinalExit | miriway_child_control.cpp:115-120 | A clean exit, or one the predicate does not follow up, stops the component |
| SupervisionTheorems.GivesUp | miriway_child_control.cpp:173-177 | A short run with the counter at three is the last |
| SupervisionTheorems.StoppedForGood | miriway_child_control.cpp:100-130 | A stopped component stays as it is on every run |
| Docking.DockCyclesIff | miriway_policy.cpp:340-365 | Docking again and again gives a half, a third, two thirds exactly if the zone is at least five wide, or at most one |
| Docking.DockEntersCycle | miriway_policy.cpp:346-365 | In such a zone one dock brings a window attached there into the cycle, whatever its width, and it keeps to it |
| Docking.DockEntersCycleIff | miriway_policy.cpp:346-365 | And in no other zone does it, from any width |

## Left out

- WorkspaceManagement.WorkspaceManager.HandleModifyWindow: sizes are filtered, but a desk does not record them, because what placement makes of them is not shown.
- WorkspaceManagement.WorkspaceManager.NewWindow: the toolkit's filing of a child with its parent is taken to come without a notification of its own; for application windows one would make no difference (`NotifiedFilingAgrees`), while it would hide the child of a shell window that is filed in another workspace than the active one.
- Focus policy, placement and size arithmetic, and resource lifetimes of the window-management toolkit: only the contract above is kept.
- Outputs: `on_output_create` and its companions, and the group's output events, tell the same story as workspaces with less in it.
- Several instances of the protocol's global: one is modelled, with any number of clients.
- A client's destroy request as a step of the protocol runs: `ExtWorkspaceManagerV1.OnDestroy` and `ForgetKeepsNumbersIff` say what it does by itself; the runs have clients destroy a handle only after it was removed.
- Memberships of shell windows: they may be in several workspaces and outlive an erased one, so the filing invariants speak of application windows only.
- Reparenting a window, and changes of layer other than the always-on-top toggle.
- The actual table of options: migration is proved for every table whose names and keys contain no `=`, whose keys do not begin with `#` and whose `.config` names are distinct.
- Forwarding of registrations to the underlying store, and the numeric formatting of presets, which arrive as text.
- Opening files, looking up environment variables, `timerfd` failures other than as one outcome, `waitpid` and `kill`.
- Timers that survive `shutdown` may still launch; nothing is claimed about what runs afterwards beyond the invariant.
- Commands, key bindings, the application switcher, the magnifier and the scripts: single dispatches that one branch settles.
