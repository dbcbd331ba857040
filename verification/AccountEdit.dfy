/** The edit states of an account and its check that an edited account can be saved. */
module AccountEdit {
  import opened Accounts

  datatype EditState = READY | EDITING | OUTDATED | NEW | MODIFIED_INCOMPLETE | MODIFIED_COMPLETE | REMOVED
  datatype EditAction = NOTHING | EDIT | RELOAD | SAVE | REMOVE | MODIFY | CANCEL
  datatype Handler = Nothing | Edit | Reload | Save | Remove | Modify | Cancel | Outdate | ReloadMod

  /** The details that matter here, and any other one. */
  datatype Key = ALIAS | HOSTNAME | USERNAME | ENABLED | STATUS | OTHER(name: string)

  datatype RoleStatus = OK | REQUIRED_EMPTY | INVALID
  datatype Roles = Roles(alias: RoleStatus, hostname: RoleStatus, username: RoleStatus, password: RoleStatus)

  /** What the daemon answers about an account; no details means that it does not know the account. */
  datatype Daemon = Daemon(details: map<Key, string>, password: string)

  /** The host name is kept both as a detail and in a cache; sent is what was saved to the daemon last. */
  datatype State = State(
    protocol: Protocol, isNew: bool, details: map<Key, string>, hostname: string, password: string,
    roles: Roles, edit: EditState, sent: map<Key, string>)

  function HandlerOf(edit: EditState, action: EditAction): Handler {
    match action
    case NOTHING => Nothing
    case EDIT => if edit == READY then Edit else Nothing
    case RELOAD => if edit == READY then Reload else if edit == EDITING then Outdate else Nothing
    case SAVE => if edit == NEW || edit == MODIFIED_INCOMPLETE || edit == MODIFIED_COMPLETE then Save else Nothing
    case REMOVE => if edit == REMOVED then Nothing else Remove
    case MODIFY =>
      (match edit
       case READY => Modify
       case EDITING => Modify
       case OUTDATED => ReloadMod
       case NEW => Nothing
       case MODIFIED_INCOMPLETE => Modify
       case MODIFIED_COMPLETE => Modify
       case REMOVED => Nothing)
    case CANCEL =>
      (match edit
       case READY => Nothing
       case EDITING => Cancel
       case OUTDATED => Reload
       case NEW => Nothing
       case MODIFIED_INCOMPLETE => Reload
       case MODIFIED_COMPLETE => Reload
       case REMOVED => Cancel)
  }

  function Detail(details: map<Key, string>, key: Key): string {
    if key in details then details[key] else ""
  }

  function Alias(s: State): string { Detail(s.details, ALIAS) }
  function Username(s: State): string { Detail(s.details, USERNAME) }
  predicate Enabled(s: State) { Detail(s.details, ENABLED) == "true" }

  // ----- Actions -----

  function Filled(text: string): RoleStatus {
    if text == "" then REQUIRED_EMPTY else OK
  }

  /** Without host name, a SIP account needs nothing else either. */
  predicate IsIp2ip(s: State) {
    s.protocol == SIP && s.hostname == ""
  }

  /** The name of a new Ring account comes later; without one, an existing account can only be disabled. */
  function RolesOf(s: State): Roles {
    var roles := Roles(Filled(Alias(s)), Filled(s.hostname), Filled(Username(s)), Filled(s.password));
    match s.protocol
    case SIP => if IsIp2ip(s) then Roles(OK, OK, OK, OK) else roles
    case RING =>
      roles.(hostname := OK, password := OK,
             username :=
               if s.isNew && Username(s) == "" then OK
               else if s.isNew then INVALID
               else if Username(s) == "" then (if Enabled(s) then INVALID else OK)
               else roles.username)
  }

  /** A Ring account that is ready asks the daemon again for a missing user name. */
  function WithUsername(s: State, daemon: Daemon): State {
    if Username(s) == "" && s.protocol == RING && s.edit == READY
    then s.(details := s.details[USERNAME := Detail(daemon.details, USERNAME)])
    else s
  }

  function Modified(s: State, daemon: Daemon): State {
    var t := WithUsername(s, daemon);
    var roles := RolesOf(t);
    t.(roles := roles, edit := if roles == Roles(OK, OK, OK, OK) then MODIFIED_COMPLETE else MODIFIED_INCOMPLETE)
  }

  /** The details are replaced, the cached host name follows, and so do the credentials. */
  function Reloaded(s: State, daemon: Daemon): State {
    if s.isNew then s
    else
      var t := if daemon.details == map[] then s
               else s.(details := daemon.details, hostname := Detail(daemon.details, HOSTNAME));
      t.(edit := READY, password := daemon.password)
  }

  /** A new account gets an identifier from the daemon; its reload has no effect before the state is READY. */
  function Saved(s: State): State {
    s.(isNew := false, edit := READY, sent := s.details)
  }

  function Perform(s: State, action: EditAction, daemon: Daemon): State {
    match HandlerOf(s.edit, action)
    case Nothing => s
    case Edit => s.(edit := EDITING)
    case Reload => Reloaded(s, daemon)
    case Save => Saved(s)
    case Remove => s.(edit := REMOVED)
    case Modify => Modified(s, daemon)
    case Cancel => s.(edit := READY)
    case Outdate => s.(edit := OUTDATED)
    case ReloadMod => Modified(Reloaded(s, daemon), daemon)
  }

  // ----- Setters -----

  /** Only a change counts as a modification, and a change of the status does not. */
  function SetProperty(s: State, key: Key, text: string, daemon: Daemon): State {
    if Detail(s.details, key) == text then s
    else
      var t := s.(details := s.details[key := text]);
      if key == STATUS then t else Perform(t, MODIFY, daemon)
  }

  function SetAlias(s: State, text: string, daemon: Daemon): State {
    if text == "" && Alias(s) != "" then s else SetProperty(s, ALIAS, text, daemon)
  }

  function SetHostname(s: State, text: string, daemon: Daemon): State {
    if s.hostname == text then s else SetProperty(s.(hostname := text), HOSTNAME, text, daemon)
  }

  /** The credentials of a SIP account may add a modification of their own. */
  function SetUsername(s: State, text: string, echo: bool, daemon: Daemon): State {
    var t := SetProperty(s, USERNAME, text, daemon);
    if s.protocol == SIP && echo then Perform(t, MODIFY, daemon) else t
  }

  function SetEnabled(s: State, on: bool, daemon: Daemon): State {
    SetProperty(s, ENABLED, if on then "true" else "false", daemon)
  }

  function SetPassword(s: State, text: string, daemon: Daemon): State {
    Perform(s.(password := text), MODIFY, daemon)
  }

  // ----- Runs -----

  datatype Change =
    | Performed(action: EditAction)
    | AliasSet(text: string)
    | HostnameSet(text: string)
    | UsernameSet(text: string, echo: bool)
    | EnabledSet(on: bool)
    | PasswordSet(text: string)
    | StatusSet(text: string)
    | OtherSet(name: string, text: string)
    | ServersSaved(text: string)          // the bootstrap servers, which only Ring accounts have

  datatype Event = Event(change: Change, daemon: Daemon)

  function Step(s: State, e: Event): State {
    match e.change
    case Performed(action) => Perform(s, action, e.daemon)
    case AliasSet(text) => SetAlias(s, text, e.daemon)
    case HostnameSet(text) => SetHostname(s, text, e.daemon)
    case UsernameSet(text, echo) => SetUsername(s, text, echo, e.daemon)
    case EnabledSet(on) => SetEnabled(s, on, e.daemon)
    case PasswordSet(text) => SetPassword(s, text, e.daemon)
    case StatusSet(text) => SetProperty(s, STATUS, text, e.daemon)
    case OtherSet(name, text) => SetProperty(s, OTHER(name), text, e.daemon)
    case ServersSaved(text) => if s.protocol == RING then SetProperty(s, HOSTNAME, text, e.daemon) else s
  }

  function Run(s: State, events: seq<Event>): State
    decreases |events|
  {
    if events == [] then s else Run(Step(s, events[0]), events[1..])
  }

  /** An account that the daemon knows, as it is built. */
  function Existing(protocol: Protocol, daemon: Daemon): State {
    var roles := Roles(OK, OK, OK, OK);
    Reloaded(State(protocol, false, map[], "", "", roles, READY, map[]), daemon)
  }

  /** What each protocol asks for, in terms of the current details alone. */
  predicate Complete(s: State) {
    match s.protocol
    case SIP => Detail(s.details, HOSTNAME) == "" || (Alias(s) != "" && Username(s) != "" && s.password != "")
    case RING => Alias(s) != "" && if s.isNew then Username(s) == "" else Username(s) != "" || !Enabled(s)
  }

  /** The cached host name of a SIP account is its detail, and modified accounts are classified correctly. */
  predicate Inv(s: State) {
    && (s.protocol == SIP ==> s.hostname == Detail(s.details, HOSTNAME))
    && (s.edit == MODIFIED_COMPLETE ==> Complete(s))
    && (s.edit == MODIFIED_INCOMPLETE ==> !Complete(s))
    && s.edit != NEW
  }

  /** The check of the roles finds out whether the account is complete, given the cached host name is right. */
  lemma ModifiedClassifies(s: State, daemon: Daemon)
    requires s.protocol == SIP ==> s.hostname == Detail(s.details, HOSTNAME)
    ensures
      var t := Modified(s, daemon);
      Inv(t) && (t.edit == MODIFIED_COMPLETE <==> Complete(t)) && (t.edit == MODIFIED_INCOMPLETE <==> !Complete(t))
  {
  }

  lemma PerformKeeps(s: State, action: EditAction, daemon: Daemon)
    requires Inv(s)
    ensures Inv(Perform(s, action, daemon))
  {
    hide RolesOf, Modified, Complete;
    ModifiedClassifies(s, daemon);
    ModifiedClassifies(Reloaded(s, daemon), daemon);
  }

  /** A changed detail is classified at once, whatever the classification was before. */
  lemma ModifyRepairs(s: State, t: State, daemon: Daemon)
    requires Inv(s) && t.edit == s.edit && t.protocol == s.protocol
    requires t.protocol == SIP ==> t.hostname == Detail(t.details, HOSTNAME)
    ensures Inv(Perform(t, MODIFY, daemon))
  {
    hide RolesOf, Modified, Complete;
    ModifiedClassifies(t, daemon);
    ModifiedClassifies(Reloaded(t, daemon), daemon);
  }

  lemma SetPropertyKeeps(s: State, key: Key, text: string, daemon: Daemon)
    requires Inv(s) && (key == HOSTNAME ==> s.protocol == RING)
    ensures Inv(SetProperty(s, key, text, daemon)) && SetProperty(s, key, text, daemon).protocol == s.protocol
  {
    hide RolesOf, Perform;
    if key != STATUS {
      ModifyRepairs(s, s.(details := s.details[key := text]), daemon);
    }
    PerformRest(s.(details := s.details[key := text]), MODIFY, daemon);
  }

  lemma PerformRest(s: State, action: EditAction, daemon: Daemon)
    ensures Perform(s, action, daemon).protocol == s.protocol
  {
  }

  lemma StepKeeps(s: State, e: Event)
    requires Inv(s)
    ensures Inv(Step(s, e))
  {
    hide Perform, SetProperty;
    match e.change
    case Performed(action) => PerformKeeps(s, action, e.daemon);
    case AliasSet(text) => SetPropertyKeeps(s, ALIAS, text, e.daemon);
    case HostnameSet(text) => SetHostnameKeeps(s, text, e.daemon);
    case UsernameSet(text, echo) =>
      SetPropertyKeeps(s, USERNAME, text, e.daemon);
      PerformKeeps(SetProperty(s, USERNAME, text, e.daemon), MODIFY, e.daemon);
    case EnabledSet(on) => SetPropertyKeeps(s, ENABLED, if on then "true" else "false", e.daemon);
    case PasswordSet(text) => ModifyRepairs(s, s.(password := text), e.daemon);
    case StatusSet(text) => SetPropertyKeeps(s, STATUS, text, e.daemon);
    case OtherSet(name, text) => SetPropertyKeeps(s, OTHER(name), text, e.daemon);
    case ServersSaved(text) =>
      if s.protocol == RING {
        SetPropertyKeeps(s, HOSTNAME, text, e.daemon);
      }
  }

  /** Setting the host name keeps cache and detail equal. */
  lemma SetHostnameKeeps(s: State, text: string, daemon: Daemon)
    requires Inv(s)
    ensures Inv(SetHostname(s, text, daemon))
  {
    hide RolesOf, Perform;
    ModifyRepairs(s, s.(hostname := text, details := s.details[HOSTNAME := text]), daemon);
  }

  lemma {:induction false} RunKeeps(s: State, events: seq<Event>)
    requires Inv(s)
    ensures Inv(Run(s, events))
    decreases |events|
  {
    if events != [] {
      StepKeeps(s, events[0]);
      RunKeeps(Step(s, events[0]), events[1..]);
    }
  }

  /**
    After any changes to an existing account: while it is modified, it is MODIFIED_COMPLETE exactly if
    it has what its protocol requires.
   */
  lemma EveryRunClassifies(protocol: Protocol, daemon: Daemon, events: seq<Event>)
    ensures
      var s := Run(Existing(protocol, daemon), events);
      && (s.protocol == SIP ==> s.hostname == Detail(s.details, HOSTNAME))
      && (s.edit == MODIFIED_COMPLETE || s.edit == MODIFIED_INCOMPLETE ==>
            (s.edit == MODIFIED_COMPLETE <==> Complete(s)))
  {
    RunKeeps(Existing(protocol, daemon), events);
  }

  // ----- What becomes of edits -----

  /**
    An edit is overwritten when the account is outdated, by the reload that the edit causes, or when it
    clears the user name of a Ring account that is ready, which is then asked for again.
   */
  predicate Overwritten(s: State, key: Key, text: string, daemon: Daemon) {
    || (s.edit == OUTDATED && !s.isNew && daemon.details != map[] && Detail(daemon.details, key) != text)
    || (s.edit == READY && s.protocol == RING && key == USERNAME && text == "" &&
        Detail(daemon.details, USERNAME) != "")
  }

  /** Exactly when a setter does not leave the text that it was given. */
  lemma EditIsLostExactly(s: State, key: Key, text: string, daemon: Daemon)
    ensures Detail(SetProperty(s, key, text, daemon).details, key) != text
       <==> Detail(s.details, key) != text && key != STATUS && Overwritten(s, key, text, daemon)
  {
    hide Perform, HandlerOf;
    ModifyLeaves(s.(details := s.details[key := text]), daemon);
  }

  /** The details that a modification leaves: those of the daemon, with a new user name, or the same. */
  lemma ModifyLeaves(s: State, daemon: Daemon)
    ensures
      var named := s.details[USERNAME := Detail(daemon.details, USERNAME)];
      var asked := s.edit == READY && s.protocol == RING && Username(s) == "";
      var loaded := s.edit == OUTDATED && !s.isNew && daemon.details != map[];
      forall k :: Detail(Perform(s, MODIFY, daemon).details, k) == Detail(
        if loaded then daemon.details else if asked then named else s.details, k)
  {
    hide RolesOf;
  }

  /** A cleared user name of a Ring account comes back. */
  lemma ClearedNameComesBack()
    ensures
      var daemon := Daemon(map[ALIAS := "work", USERNAME := "f00d"], "");
      var s := Existing(RING, daemon);
      Username(SetUsername(s, "", false, daemon)) == "f00d" && Overwritten(s, USERNAME, "", daemon)
  {
  }

  /** Changes of anything but one detail, while the account is modified. */
  predicate EditsOthers(change: Change, key: Key) {
    match change
    case Performed(action) => action != SAVE && action != REMOVE && action != CANCEL
    case AliasSet(_) => key != ALIAS
    case HostnameSet(_) => key != HOSTNAME
    case UsernameSet(_, _) => key != USERNAME
    case EnabledSet(_) => key != ENABLED
    case PasswordSet(_) => true
    case StatusSet(_) => key != STATUS
    case OtherSet(name, _) => key != OTHER(name)
    case ServersSaved(_) => key != HOSTNAME
  }

  predicate IsModified(s: State) {
    s.edit == MODIFIED_COMPLETE || s.edit == MODIFIED_INCOMPLETE
  }

  lemma OthersKeep(s: State, e: Event, key: Key)
    requires IsModified(s) && EditsOthers(e.change, key)
    ensures IsModified(Step(s, e)) && Detail(Step(s, e).details, key) == Detail(s.details, key)
  {
    hide Perform, SetProperty;
    match e.change
    case Performed(action) => ActionKeepsDetails(s, action, e.daemon);
    case AliasSet(text) => PropertyKeeps(s, ALIAS, text, e.daemon, key);
    case HostnameSet(text) => PropertyKeeps(s.(hostname := text), HOSTNAME, text, e.daemon, key);
    case UsernameSet(text, _) =>
      PropertyKeeps(s, USERNAME, text, e.daemon, key);
      ActionKeepsDetails(SetProperty(s, USERNAME, text, e.daemon), MODIFY, e.daemon);
    case EnabledSet(on) => PropertyKeeps(s, ENABLED, if on then "true" else "false", e.daemon, key);
    case PasswordSet(text) => ActionKeepsDetails(s.(password := text), MODIFY, e.daemon);
    case StatusSet(text) => PropertyKeeps(s, STATUS, text, e.daemon, key);
    case OtherSet(name, text) => PropertyKeeps(s, OTHER(name), text, e.daemon, key);
    case ServersSaved(text) => PropertyKeeps(s, HOSTNAME, text, e.daemon, key);
  }

  lemma ActionKeepsDetails(s: State, action: EditAction, daemon: Daemon)
    requires IsModified(s) && action != SAVE && action != REMOVE && action != CANCEL
    ensures IsModified(Perform(s, action, daemon)) && Perform(s, action, daemon).details == s.details
  {
    hide RolesOf;
  }

  lemma PropertyKeeps(s: State, edited: Key, text: string, daemon: Daemon, key: Key)
    requires IsModified(s) && edited != key
    ensures
      var t := SetProperty(s, edited, text, daemon);
      IsModified(t) && Detail(t.details, key) == Detail(s.details, key)
  {
    hide Perform;
    ActionKeepsDetails(s.(details := s.details[edited := text]), MODIFY, daemon);
  }

  lemma {:induction false} OthersRunKeeps(s: State, events: seq<Event>, key: Key)
    requires IsModified(s) && forall e :: e in events ==> EditsOthers(e.change, key)
    ensures IsModified(Run(s, events)) && Detail(Run(s, events).details, key) == Detail(s.details, key)
    decreases |events|
  {
    if events != [] {
      OthersKeep(s, events[0], key);
      OthersRunKeeps(Step(s, events[0]), events[1..], key);
    }
  }

  /**
    From an edit to the next save, with any edits of other details in between: the daemon gets the text
    exactly if the edit was not overwritten.
   */
  lemma EditIsSavedExactly(s: State, key: Key, text: string, daemon: Daemon, events: seq<Event>, other: Daemon)
    requires s.edit != NEW && s.edit != REMOVED && key != STATUS && Detail(s.details, key) != text
    requires forall e :: e in events ==> EditsOthers(e.change, key)
    ensures
      var saved := Perform(Run(SetProperty(s, key, text, daemon), events), SAVE, other);
      && saved.edit == READY && saved.sent == saved.details
      && (Detail(saved.sent, key) == text <==> !Overwritten(s, key, text, daemon))
  {
    hide RolesOf;
    EditIsLostExactly(s, key, text, daemon);
    OthersRunKeeps(SetProperty(s, key, text, daemon), events, key);
  }

  /** Each setter writes its own detail of a modified account, and leaves all others alone. */
  lemma SettersWrite(s: State, e: Event, key: Key)
    requires IsModified(s) && (s.protocol == SIP ==> s.hostname == Detail(s.details, HOSTNAME))
    ensures
      var was, now := Detail(s.details, key), Detail(Step(s, e).details, key);
      match e.change
      case AliasSet(text) => now == if key == ALIAS && text != "" then text else was
      case HostnameSet(text) =>
        (key != HOSTNAME ==> now == was) && (s.protocol == SIP && key == HOSTNAME ==> now == text)
      case UsernameSet(text, _) => now == if key == USERNAME then text else was
      case EnabledSet(on) => now == if key == ENABLED then (if on then "true" else "false") else was
      case PasswordSet(text) => now == was && Step(s, e).password == text
      case StatusSet(text) => now == if key == STATUS then text else was
      case OtherSet(name, text) => now == if key == OTHER(name) then text else was
      case ServersSaved(text) => now == if key == HOSTNAME && s.protocol == RING then text else was
      case Performed(_) => true
  {
    hide Perform;
    match e.change
    case AliasSet(text) => PropertyWrites(s, ALIAS, text, e.daemon, key);
    case HostnameSet(text) => PropertyWrites(s.(hostname := text), HOSTNAME, text, e.daemon, key);
    case UsernameSet(text, _) =>
      PropertyWrites(s, USERNAME, text, e.daemon, key);
      ActionKeepsDetails(SetProperty(s, USERNAME, text, e.daemon), MODIFY, e.daemon);
    case EnabledSet(on) => PropertyWrites(s, ENABLED, if on then "true" else "false", e.daemon, key);
    case PasswordSet(text) => PasswordWrites(s, text, e.daemon);
    case StatusSet(text) => PropertyWrites(s, STATUS, text, e.daemon, key);
    case OtherSet(name, text) => PropertyWrites(s, OTHER(name), text, e.daemon, key);
    case ServersSaved(text) => PropertyWrites(s, HOSTNAME, text, e.daemon, key);
    case Performed(_) =>
  }

  lemma PropertyWrites(s: State, edited: Key, text: string, daemon: Daemon, key: Key)
    requires IsModified(s)
    ensures
      var t := SetProperty(s, edited, text, daemon);
      IsModified(t) && Detail(t.details, key) == if key == edited then text else Detail(s.details, key)
  {
    hide Perform;
    ActionKeepsDetails(s.(details := s.details[edited := text]), MODIFY, daemon);
  }

  lemma PasswordWrites(s: State, text: string, daemon: Daemon)
    requires IsModified(s)
    ensures
      var t := SetPassword(s, text, daemon);
      t.details == s.details && t.password == text
  {
    hide RolesOf;
  }

  // ----- Opening, saving and checking -----

  /** Opening is for ready accounts, saving for new and modified ones; anywhere else they do nothing. */
  lemma OpenAndSave(s: State, daemon: Daemon)
    ensures Perform(s, EDIT, daemon) == if s.edit == READY then s.(edit := EDITING) else s
    ensures
      var t := Perform(s, SAVE, daemon);
      if s.edit == NEW || IsModified(s) then t.edit == READY && t.sent == t.details == s.details && !t.isNew else t == s
  {
  }

  /** What the check says of each role: which one keeps an account from being complete. */
  lemma RolesSay(s: State, daemon: Daemon)
    requires s.edit != READY
    ensures
      var r := Modified(s, daemon).roles;
      match s.protocol
      case SIP =>
        var checked := s.hostname != "";
        && (r.alias == if checked && Alias(s) == "" then REQUIRED_EMPTY else OK)
        && (r.username == if checked && Username(s) == "" then REQUIRED_EMPTY else OK)
        && (r.password == if checked && s.password == "" then REQUIRED_EMPTY else OK)
        && r.hostname == OK
      case RING =>
        && (r.alias == if Alias(s) == "" then REQUIRED_EMPTY else OK)
        && (r.username == if (s.isNew && Username(s) != "") || (!s.isNew && Username(s) == "" && Enabled(s))
                          then INVALID else OK)
        && r.hostname == OK && r.password == OK
  {
  }

  // ----- Cancelling -----

  /** The account shows what the daemon answers, and nothing else. */
  ghost predicate ShowsDaemon(s: State, daemon: Daemon) {
    && (forall k: Key :: Detail(s.details, k) == Detail(daemon.details, k))
    && s.hostname == Detail(daemon.details, HOSTNAME) && s.password == daemon.password
  }

  /** Cancelling the edits of an account that the daemon knows brings back what the daemon has. */
  lemma CancelReloads(s: State, daemon: Daemon)
    requires !s.isNew && (IsModified(s) || s.edit == OUTDATED) && daemon.details != map[]
    ensures
      var t := Perform(s, CANCEL, daemon);
      t.edit == READY && ShowsDaemon(t, daemon) && t.sent == s.sent && !t.isNew && t.protocol == s.protocol
  {
  }

  /** Anything but saving, removing and cancelling. */
  predicate Edits(change: Change) {
    change.Performed? ==> change.action != SAVE && change.action != REMOVE && change.action != CANCEL
  }

  predicate BeingEdited(s: State) {
    !s.isNew && s.edit != NEW && s.edit != REMOVED
  }

  lemma ActionSendsNothing(s: State, action: EditAction, daemon: Daemon)
    requires BeingEdited(s) && action != SAVE && action != REMOVE && action != CANCEL
    ensures BeingEdited(Perform(s, action, daemon)) && Perform(s, action, daemon).sent == s.sent
  {
    hide RolesOf;
  }

  lemma PropertySendsNothing(s: State, key: Key, text: string, daemon: Daemon)
    requires BeingEdited(s)
    ensures BeingEdited(SetProperty(s, key, text, daemon)) && SetProperty(s, key, text, daemon).sent == s.sent
  {
    hide Perform;
    ActionSendsNothing(s.(details := s.details[key := text]), MODIFY, daemon);
  }

  lemma EditSendsNothing(s: State, e: Event)
    requires BeingEdited(s) && Edits(e.change)
    ensures BeingEdited(Step(s, e)) && Step(s, e).sent == s.sent
  {
    hide Perform, SetProperty;
    match e.change
    case Performed(action) => ActionSendsNothing(s, action, e.daemon);
    case AliasSet(text) => PropertySendsNothing(s, ALIAS, text, e.daemon);
    case HostnameSet(text) => PropertySendsNothing(s.(hostname := text), HOSTNAME, text, e.daemon);
    case UsernameSet(text, _) =>
      PropertySendsNothing(s, USERNAME, text, e.daemon);
      ActionSendsNothing(SetProperty(s, USERNAME, text, e.daemon), MODIFY, e.daemon);
    case EnabledSet(on) => PropertySendsNothing(s, ENABLED, if on then "true" else "false", e.daemon);
    case PasswordSet(text) => ActionSendsNothing(s.(password := text), MODIFY, e.daemon);
    case StatusSet(text) => PropertySendsNothing(s, STATUS, text, e.daemon);
    case OtherSet(name, text) => PropertySendsNothing(s, OTHER(name), text, e.daemon);
    case ServersSaved(text) => PropertySendsNothing(s, HOSTNAME, text, e.daemon);
  }

  lemma {:induction false} EditsSendNothing(s: State, events: seq<Event>)
    requires BeingEdited(s) && forall e :: e in events ==> Edits(e.change)
    ensures BeingEdited(Run(s, events)) && Run(s, events).sent == s.sent
    decreases |events|
  {
    if events != [] {
      EditSendsNothing(s, events[0]);
      EditsSendNothing(Step(s, events[0]), events[1..]);
    }
  }

  /**
    Whatever was edited in an account that the daemon knows, cancelling makes it ready. Edits are dropped for
    what the daemon has, an account that was only opened for editing stays as it is, and nothing is sent.
   */
  lemma CancelUndoesEdits(s: State, events: seq<Event>, daemon: Daemon)
    requires BeingEdited(s) && daemon.details != map[] && forall e :: e in events ==> Edits(e.change)
    ensures
      var u := Run(s, events);
      var t := Perform(u, CANCEL, daemon);
      && t.edit == READY && t.sent == s.sent && BeingEdited(t)
      && (if IsModified(u) || u.edit == OUTDATED then ShowsDaemon(t, daemon) else t == u.(edit := READY))
  {
    EditsSendNothing(s, events);
    hide Run;
    if IsModified(Run(s, events)) || Run(s, events).edit == OUTDATED {
      CancelReloads(Run(s, events), daemon);
    }
  }

  /** One edit of a detail of a ready or opened account, and its cancellation. */
  lemma EditThenCancel(s: State, key: Key, text: string, daemon: Daemon, other: Daemon)
    requires BeingEdited(s) && key != STATUS && Detail(s.details, key) != text && other.details != map[]
    ensures
      var t := Perform(SetProperty(s, key, text, daemon), CANCEL, other);
      t.edit == READY && ShowsDaemon(t, other) && t.sent == s.sent
  {
    hide RolesOf;
  }

  /** A reload never touches an account that is being edited; it marks one that was opened as outdated. */
  lemma ReloadSparesEdits(s: State, daemon: Daemon)
    requires BeingEdited(s) && daemon.details != map[]
    ensures
      var t := Perform(s, RELOAD, daemon);
      && (s.edit == READY ==> t.edit == READY && ShowsDaemon(t, daemon) && t.sent == s.sent)
      && (s.edit == EDITING ==> t == s.(edit := OUTDATED))
      && (s.edit != READY && s.edit != EDITING ==> t == s)
  {
  }

  /** Until the removal is cancelled. */
  lemma RemovedKeeps(s: State, e: Event)
    requires s.edit == REMOVED && e.change != Performed(CANCEL)
    ensures Step(s, e).edit == REMOVED && Step(s, e).sent == s.sent
  {
  }

  lemma {:induction false} RemovedRunKeeps(s: State, events: seq<Event>)
    requires s.edit == REMOVED && forall e :: e in events ==> e.change != Performed(CANCEL)
    ensures Run(s, events).edit == REMOVED && Run(s, events).sent == s.sent
    decreases |events|
  {
    if events != [] {
      RemovedKeeps(s, events[0]);
      RemovedRunKeeps(Step(s, events[0]), events[1..]);
    }
  }

  /**
    Whatever is edited before a removal is cancelled, the account is then ready as it stands: nothing was
    saved, nothing is loaded again, and saving has no effect.
   */
  lemma RemovedEditsStay(s: State, events: seq<Event>, daemon: Daemon, cancel: Daemon, save: Daemon)
    requires s.edit != REMOVED && forall e :: e in events ==> e.change != Performed(CANCEL)
    ensures
      var edited := Run(Perform(s, REMOVE, daemon), events);
      var back := Perform(edited, CANCEL, cancel);
      && back == edited.(edit := READY) && back.sent == s.sent
      && Perform(back, SAVE, save) == back
  {
    RemovedRunKeeps(Perform(s, REMOVE, daemon), events);
  }
}

/** An account whose details are edited in place. */
module EditedAccounts {
  import opened Accounts
  import opened AccountEdit

  class EditedAccount {
    const protocol: Protocol
    var isNew: bool
    var details: map<Key, string>
    var hostname: string
    var password: string
    var roles: Roles
    var editState: EditState
    var sent: map<Key, string>

    ghost function State(): State
      reads this
    {
      AccountEdit.State(protocol, isNew, details, hostname, password, roles, editState, sent)
    }

    constructor Build(protocol: Protocol, daemon: Daemon)
      ensures State() == Existing(protocol, daemon)
    {
      this.protocol, isNew, details, hostname, password := protocol, false, map[], "", "";
      roles, editState, sent := Roles(OK, OK, OK, OK), READY, map[];
      new;
      Reload(daemon);
    }

    method CheckRoles() returns (checked: Roles)
      ensures checked == RolesOf(State())
    {
      var name := Detail(details, USERNAME);
      var alias, host := Filled(Detail(details, ALIAS)), Filled(hostname);
      var user, pass := Filled(name), Filled(password);
      match protocol {
        case SIP =>
          if hostname == "" {
            alias, host, user, pass := OK, OK, OK, OK;
          }
        case RING =>
          host, pass := OK, OK;
          if isNew && name == "" {
            user := OK;
          } else if isNew {
            user := INVALID;
          } else if name == "" {
            user := if Detail(details, ENABLED) == "true" then INVALID else OK;
          }
      }
      checked := Roles(alias, host, user, pass);
    }

    method Modify(daemon: Daemon)
      modifies this
      ensures State() == Modified(old(State()), daemon)
    {
      hide RolesOf;
      if Detail(details, USERNAME) == "" && protocol == RING && editState == READY {
        details := details[USERNAME := Detail(daemon.details, USERNAME)];
      }
      roles := CheckRoles();
      var incomplete := roles.alias != OK || roles.hostname != OK || roles.username != OK || roles.password != OK;
      editState := if incomplete then MODIFIED_INCOMPLETE else MODIFIED_COMPLETE;
    }

    method Reload(daemon: Daemon)
      modifies this
      ensures State() == Reloaded(old(State()), daemon)
    {
      if !isNew {
        if daemon.details != map[] {
          details := daemon.details;
          if hostname != Detail(details, HOSTNAME) {
            hostname := Detail(details, HOSTNAME);
          }
        }
        editState := READY;
        password := daemon.password;
      }
    }

    method Save()
      modifies this
      ensures State() == Saved(old(State()))
    {
      sent := details;
      isNew := false;
      editState := READY;
    }

    method PerformAction(action: EditAction, daemon: Daemon)
      modifies this
      ensures State() == Perform(old(State()), action, daemon)
    {
      hide Modified, Reloaded;
      match HandlerOf(editState, action)
      case Nothing =>
      case Edit => editState := EDITING;
      case Reload => Reload(daemon);
      case Save => Save();
      case Remove => editState := REMOVED;
      case Modify => Modify(daemon);
      case Cancel => editState := READY;
      case Outdate => editState := OUTDATED;
      case ReloadMod =>
        Reload(daemon);
        Modify(daemon);
    }

    method SetAccountProperty(key: Key, text: string, daemon: Daemon)
      modifies this
      ensures State() == SetProperty(old(State()), key, text, daemon)
    {
      hide Perform;
      var changed := Detail(details, key) != text;
      if key == STATUS {
        if changed {
          details := details[key := text];
        }
      } else if changed {
        details := details[key := text];
        PerformAction(MODIFY, daemon);
      }
    }

    method SetAlias(text: string, daemon: Daemon)
      modifies this
      ensures State() == AccountEdit.SetAlias(old(State()), text, daemon)
    {
      hide SetProperty;
      if text == "" && Detail(details, ALIAS) != "" {
        return;
      }
      SetAccountProperty(ALIAS, text, daemon);
    }

    method SetHostname(text: string, daemon: Daemon)
      modifies this
      ensures State() == AccountEdit.SetHostname(old(State()), text, daemon)
    {
      hide SetProperty;
      if hostname != text {
        hostname := text;
        SetAccountProperty(HOSTNAME, text, daemon);
      }
    }

    method SetUsername(text: string, echo: bool, daemon: Daemon)
      modifies this
      ensures State() == AccountEdit.SetUsername(old(State()), text, echo, daemon)
    {
      hide SetProperty, Perform;
      SetAccountProperty(USERNAME, text, daemon);
      if protocol == SIP && echo {
        PerformAction(MODIFY, daemon);
      }
    }

    method SetEnabled(on: bool, daemon: Daemon)
      modifies this
      ensures State() == AccountEdit.SetEnabled(old(State()), on, daemon)
    {
      hide SetProperty;
      SetAccountProperty(ENABLED, if on then "true" else "false", daemon);
    }

    method SetPassword(text: string, daemon: Daemon)
      modifies this
      ensures State() == AccountEdit.SetPassword(old(State()), text, daemon)
    {
      hide Perform;
      password := text;
      PerformAction(MODIFY, daemon);
    }
  }
}
