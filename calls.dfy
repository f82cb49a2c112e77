/**
 * The method names each layer calls on the one below it, and the names that
 * layer defines. The store speaks of "fighters" where the controller speaks
 * of "users", and each layer calls the one below by the names of the other
 * vocabulary, so a Python attribute lookup by exact name fails for part of
 * the calls. The roster operations of the model bind every call to the
 * method of the same role, as `Lookup` does.
 */
module Calls {
  import opened Wrappers

  /** Every method name that occurs in a definition or a call, in either vocabulary. */
  datatype Name =
    AddAnnounceQueue | AddBattleQueue | AddCandidate | AddFighter | AddMessageQueue | AddUser |
    Battle | ChangeFighterAlive | ChangeFighterShow | ChangeUserAlive | ChangeUserShow |
    DeleteAnnounceQueue | DeleteBattleQueue | DeleteCandidate | DeleteFighter |
    DeleteMessageQueue | DeleteUser | ForceBattle | GetAliveUsers | GetAnnounceQueue |
    GetBattleFrequency | GetBattleQueue | GetCandidates | GetDeadFighters | GetDeadUsers |
    GetFighterAnnounce | GetFighters | GetFightersExtended | GetLastSeenId | GetMessageQueue |
    GetNextBattle | GetOptinRunning | GetRandomUsers | GetStopFrequency | GetStopNextBattle |
    GetUserAnnounce | GetUsers | GetUsersExtended | InsertCandidate | InsertFighter |
    InsertFighterKill | InsertUser | InsertUserKill | Restart | ReviveFighter | ReviveUser |
    SetBattleFrequency | SetFighterAnnounce | SetNextBattle | SetOptinRunning | SetStopFrequency |
    SetStopNextBattle | SetUserAnnounce | SetupVars | UpdateAnnounceQueue | UpdateBattleFrequency |
    UpdateBattleQueue | UpdateFighterAnnounce | UpdateLastSeen | UpdateMessageQueue |
    UpdateNextBattle | UpdateOptinRunning | UpdateStopFrequency | UpdateStopNextBattle |
    UpdateUserAnnounce | WipeAnnounceQueue | WipeBattleQueue | WipeMessageQueue

  /** The methods `WarBotDB` defines (database.py). */
  predicate StoreDefines(n: Name) {
    match n
    case AddAnnounceQueue | AddBattleQueue | AddMessageQueue | ChangeFighterAlive | ChangeFighterShow |
      DeleteAnnounceQueue | DeleteBattleQueue | DeleteCandidate | DeleteFighter |
      DeleteMessageQueue | GetAnnounceQueue | GetBattleFrequency | GetBattleQueue | GetCandidates |
      GetFighterAnnounce | GetFighters | GetLastSeenId | GetMessageQueue | GetNextBattle |
      GetOptinRunning | GetStopFrequency | GetStopNextBattle | InsertCandidate | InsertFighter |
      InsertFighterKill | Restart | SetupVars | UpdateAnnounceQueue | UpdateBattleFrequency |
      UpdateBattleQueue | UpdateFighterAnnounce | UpdateLastSeen | UpdateMessageQueue |
      UpdateNextBattle | UpdateOptinRunning | UpdateStopFrequency | UpdateStopNextBattle => true
    case _ => false
  }

  /** The methods `WarBot` defines (warbot.py). */
  predicate BotDefines(n: Name) {
    match n
    case AddAnnounceQueue | AddBattleQueue | AddCandidate | AddMessageQueue | AddUser | Battle |
      DeleteCandidate | DeleteUser | ForceBattle | GetAliveUsers | GetAnnounceQueue |
      GetBattleFrequency | GetBattleQueue | GetCandidates | GetDeadUsers | GetMessageQueue |
      GetNextBattle | GetOptinRunning | GetRandomUsers | GetStopFrequency | GetStopNextBattle |
      GetUserAnnounce | GetUsers | GetUsersExtended | Restart | ReviveUser | SetBattleFrequency |
      SetNextBattle | SetOptinRunning | SetStopFrequency | SetStopNextBattle | SetUserAnnounce |
      WipeAnnounceQueue | WipeBattleQueue | WipeMessageQueue => true
    case _ => false
  }

  /** The store methods `WarBot` calls (warbot.py). */
  predicate StoreCalls(n: Name) {
    match n
    case AddAnnounceQueue | AddBattleQueue | AddMessageQueue | ChangeUserAlive | ChangeUserShow |
      DeleteAnnounceQueue | DeleteBattleQueue | DeleteCandidate | DeleteMessageQueue | DeleteUser |
      GetAnnounceQueue | GetBattleFrequency | GetBattleQueue | GetCandidates | GetMessageQueue |
      GetNextBattle | GetOptinRunning | GetStopFrequency | GetStopNextBattle | GetUserAnnounce |
      GetUsers | InsertCandidate | InsertUser | InsertUserKill | Restart | UpdateBattleFrequency |
      UpdateNextBattle | UpdateOptinRunning | UpdateStopFrequency | UpdateStopNextBattle |
      UpdateUserAnnounce => true
    case _ => false
  }

  /** The controller methods `WarBotAdmin` calls (admin.py). */
  predicate BotCalls(n: Name) {
    match n
    case AddAnnounceQueue | AddCandidate | AddFighter | Battle | DeleteCandidate | DeleteFighter |
      ForceBattle | GetBattleFrequency | GetCandidates | GetDeadFighters | GetFighterAnnounce |
      GetFighters | GetFightersExtended | GetMessageQueue | GetNextBattle | GetOptinRunning |
      GetStopFrequency | GetStopNextBattle | Restart | ReviveFighter | SetBattleFrequency |
      SetFighterAnnounce | SetNextBattle | SetOptinRunning | SetStopFrequency | SetStopNextBattle |
      WipeMessageQueue => true
    case _ => false
  }

  /** The layers a lookup can be made in. */
  datatype Layer = Store | Bot

  predicate Defines(l: Layer, n: Name) {
    match l
    case Store => StoreDefines(n)
    case Bot => BotDefines(n)
  }

  /**
   * Attribute lookup as written: a call reaches a method only under that
   * method's exact name. None stands for AttributeError.
   */
  function LookupAsWritten(l: Layer, n: Name): (r: Option<Name>)
    ensures r.Some? <==> Defines(l, n)
    ensures r.Some? ==> r.value == n
  {
    if Defines(l, n) then Some(n) else None
  }

  /** The first store call of `battle` and the call of `/addfighter` fail. */
  lemma LookupAsWrittenFails()
    ensures StoreCalls(GetUsers) && LookupAsWritten(Store, GetUsers).None?
    ensures BotCalls(AddFighter) && LookupAsWritten(Bot, AddFighter).None?
  {
  }

  /** The same method in the other vocabulary, where one exists. */
  function Counterpart(n: Name): Option<Name> {
    match n
    case AddFighter => Some(AddUser)
    case AddUser => Some(AddFighter)
    case ChangeFighterAlive => Some(ChangeUserAlive)
    case ChangeFighterShow => Some(ChangeUserShow)
    case ChangeUserAlive => Some(ChangeFighterAlive)
    case ChangeUserShow => Some(ChangeFighterShow)
    case DeleteFighter => Some(DeleteUser)
    case DeleteUser => Some(DeleteFighter)
    case GetDeadFighters => Some(GetDeadUsers)
    case GetDeadUsers => Some(GetDeadFighters)
    case GetFighterAnnounce => Some(GetUserAnnounce)
    case GetFighters => Some(GetUsers)
    case GetFightersExtended => Some(GetUsersExtended)
    case GetUserAnnounce => Some(GetFighterAnnounce)
    case GetUsers => Some(GetFighters)
    case GetUsersExtended => Some(GetFightersExtended)
    case InsertFighter => Some(InsertUser)
    case InsertFighterKill => Some(InsertUserKill)
    case InsertUser => Some(InsertFighter)
    case InsertUserKill => Some(InsertFighterKill)
    case ReviveFighter => Some(ReviveUser)
    case ReviveUser => Some(ReviveFighter)
    case SetFighterAnnounce => Some(SetUserAnnounce)
    case SetUserAnnounce => Some(SetFighterAnnounce)
    case UpdateFighterAnnounce => Some(UpdateUserAnnounce)
    case UpdateUserAnnounce => Some(UpdateFighterAnnounce)
    case _ => None
  }

  /**
   * Attribute lookup as intended: the method of that exact name or, when
   * there is none, the method of the same role in the other vocabulary.
   */
  function Lookup(l: Layer, n: Name): (r: Option<Name>)
    ensures r.Some? ==> Defines(l, r.value)
    ensures r.Some? ==> r.value == n || Counterpart(n) == Some(r.value)
    ensures LookupAsWritten(l, n).Some? ==> r == LookupAsWritten(l, n)
  {
    if Defines(l, n) then Some(n)
    else match Counterpart(n)
      case Some(m) => if Defines(l, m) then Some(m) else None
      case None => None
  }

  /** Every call `WarBot` makes on the store reaches a store method. */
  lemma StoreCallsResolve(n: Name)
    ensures StoreCalls(n) ==> Lookup(Store, n).Some?
  {
  }

  /** Every call `WarBotAdmin` makes on the controller reaches a controller method. */
  lemma BotCallsResolve(n: Name)
    ensures BotCalls(n) ==> Lookup(Bot, n).Some?
  {
  }

  /** The settings the front end hands on when it builds its controller. */
  datatype Setting = DatabaseRoute | DatabaseFilename | PhrasesRoute | PhrasesFilename

  /** The parameters of `WarBot.__init__` after `self`. */
  const BotParameters: seq<Setting> := [DatabaseRoute, DatabaseFilename]

  /** The arguments `WarBotAdmin.__init__` passes to `WarBot(...)` as written. */
  const BotArgumentsAsWritten: seq<Setting> := [DatabaseRoute, DatabaseFilename, PhrasesRoute, PhrasesFilename]

  /** The arguments as intended: the store's location only. */
  const BotArguments: seq<Setting> := [DatabaseRoute, DatabaseFilename]

  /**
   * Positional binding of a call: each parameter takes the argument in its
   * position, and a count that differs from the parameters' is a TypeError
   * (None).
   */
  function Bind(params: seq<Setting>, args: seq<Setting>): (r: Option<seq<(Setting, Setting)>>)
    ensures r.Some? <==> |args| == |params|
    ensures r.Some? ==> |r.value| == |params| && forall i :: 0 <= i < |params| ==> r.value[i] == (params[i], args[i])
  {
    if |args| == |params| then Some(seq(|params|, i requires 0 <= i < |params| => (params[i], args[i]))) else None
  }

  /** Building the controller as written raises TypeError. */
  lemma BuildBotAsWrittenFails()
    ensures Bind(BotParameters, BotArgumentsAsWritten).None?
  {
  }

  /** As intended, each parameter of `WarBot.__init__` receives the setting of its own name. */
  lemma BuildBotBinds()
    ensures var r := Bind(BotParameters, BotArguments);
      r.Some? && forall i :: 0 <= i < |r.value| ==> r.value[i].0 == r.value[i].1
  {
  }
}
