/** The records of the game's five tables, the insert and partial-update
    shapes the in-memory store accepts for them, and the JavaScript
    operators (`??`, object spread, `||`) the store applies to their fields.

    A column declared without `notNull` may hold `null` and is a `Nullable`
    here. In an insert, `None` stands for a field that is left out or null
    (the store reads such fields with `??`, which treats both alike); in a
    partial update, `None` stands for a field that is left out. */
module Schema {
  import opened Wrappers

  /** The milliseconds of a JavaScript `Date`. */
  type Time = int

  /** A column that may hold `null`. */
  datatype Nullable<+T> = Null | Val(v: T)

  /** `o ?? fallback` on an insert field; also one field of an object
      spread, where a field the update leaves out keeps `fallback`. */
  function OrElse<T>(o: Option<T>, fallback: T): (r: T) {
    if o.Some? then o.value else fallback
  }

  /** `o ?? null` */
  function OrNull<T>(o: Option<T>): (r: Nullable<T>) {
    if o.Some? then Val(o.value) else Null
  }

  /** `xs || []` on a nullable array column. */
  function OrEmpty<T>(xs: Nullable<seq<T>>): (r: seq<T>) {
    if xs.Val? then xs.v else []
  }

  /** The key of the store's sort comparators: `t ? new Date(t).getTime() : 0`. */
  function TimeKey(t: Nullable<Time>): (r: int) {
    if t.Val? then t.v else 0
  }

  /** The settings blob kept per user and, as an override, per game state. */
  datatype Settings = Settings(
    masterVolume: int,
    sfxVolume: int,
    musicVolume: int,
    animationSpeed: string,
    particleEffects: bool,
    portalGlow: bool,
    autosaveFrequency: int,
    typingSpeed: string,
    nsfwContent: bool,
    openrouterApiKey: string,
    aiModel: string)

  datatype User = User(
    id: int,
    username: string,
    password: string,
    email: Nullable<string>,
    profilePicture: Nullable<string>,
    globalSettings: Nullable<Settings>,
    createdAt: Nullable<Time>)

  datatype InsertUser = InsertUser(username: string, password: string, email: Nullable<string>)

  /** `Partial<User>` */
  datatype UserPatch = UserPatch(
    id: Option<int>,
    username: Option<string>,
    password: Option<string>,
    email: Option<Nullable<string>>,
    profilePicture: Option<Nullable<string>>,
    globalSettings: Option<Nullable<Settings>>,
    createdAt: Option<Nullable<Time>>)

  /** `{ ...user, ...updates }` */
  function MergeUser(user: User, updates: UserPatch): (r: User) {
    User(
      OrElse(updates.id, user.id),
      OrElse(updates.username, user.username),
      OrElse(updates.password, user.password),
      OrElse(updates.email, user.email),
      OrElse(updates.profilePicture, user.profilePicture),
      OrElse(updates.globalSettings, user.globalSettings),
      OrElse(updates.createdAt, user.createdAt))
  }

  /** A patch that names no field leaves the user as it is. */
  lemma MergeUserEmpty(user: User)
    ensures MergeUser(user, UserPatch(None, None, None, None, None, None, None)) == user
  {
  }

  /** Every field the patch names takes the patch's value, `globalSettings`
      included as a whole; every other field keeps the stored value. */
  lemma MergeUserFields(user: User, updates: UserPatch)
    ensures MergeUser(user, updates).id == if updates.id.Some? then updates.id.value else user.id
    ensures MergeUser(user, updates).username
         == if updates.username.Some? then updates.username.value else user.username
    ensures MergeUser(user, updates).password
         == if updates.password.Some? then updates.password.value else user.password
    ensures MergeUser(user, updates).email == if updates.email.Some? then updates.email.value else user.email
    ensures MergeUser(user, updates).profilePicture
         == if updates.profilePicture.Some? then updates.profilePicture.value else user.profilePicture
    ensures MergeUser(user, updates).globalSettings
         == if updates.globalSettings.Some? then updates.globalSettings.value else user.globalSettings
    ensures MergeUser(user, updates).createdAt
         == if updates.createdAt.Some? then updates.createdAt.value else user.createdAt
  {
  }

  datatype Character = Character(
    id: int,
    name: string,
    description: string,
    personality: string,
    sprite: string,
    color: string,
    traits: seq<string>,
    emotionStates: seq<string>,
    createdAt: Time)

  datatype InsertCharacter = InsertCharacter(
    name: string,
    description: string,
    personality: string,
    sprite: string,
    color: string,
    traits: seq<string>,
    emotionStates: seq<string>)

  /** `{ id, ...character, createdAt: now }` */
  function NewCharacter(id: int, character: InsertCharacter, now: Time): (r: Character) {
    Character(id, character.name, character.description, character.personality,
              character.sprite, character.color, character.traits, character.emotionStates, now)
  }

  datatype GameState = GameState(
    id: int,
    userId: int,
    characterId: int,
    affectionLevel: Nullable<int>,
    relationshipStatus: Nullable<string>,
    conversationCount: Nullable<int>,
    currentEmotion: Nullable<string>,
    unlockedBackstories: Nullable<seq<string>>,
    lastSavedAt: Nullable<Time>,
    settings: Nullable<Settings>,
    createdAt: Nullable<Time>,
    updatedAt: Nullable<Time>)

  datatype InsertGameState = InsertGameState(
    userId: int,
    characterId: int,
    affectionLevel: Option<int>,
    relationshipStatus: Option<string>,
    conversationCount: Option<int>,
    currentEmotion: Option<string>,
    unlockedBackstories: Option<seq<string>>,
    lastSavedAt: Option<Time>,
    settings: Option<Settings>)

  /** The record `createGameState` stores: the insert's fields under `id`,
      with the column defaults for the ones it leaves out, created and
      updated `now`. */
  function NewGameState(id: int, gameState: InsertGameState, now: Time): (r: GameState) {
    GameState(
      id,
      gameState.userId,
      gameState.characterId,
      Val(OrElse(gameState.affectionLevel, 0)),
      Val(OrElse(gameState.relationshipStatus, "stranger")),
      Val(OrElse(gameState.conversationCount, 0)),
      Val(OrElse(gameState.currentEmotion, "neutral")),
      Val(OrElse(gameState.unlockedBackstories, [])),
      OrNull(gameState.lastSavedAt),
      OrNull(gameState.settings),
      Val(now),
      Val(now))
  }

  /** A new game state keeps the insert's owner and character, takes every
      field the insert gives, and falls back to the defaults for the others. */
  lemma NewGameStateDefaults(id: int, gameState: InsertGameState, now: Time)
    ensures NewGameState(id, gameState, now).id == id
    ensures NewGameState(id, gameState, now).userId == gameState.userId
    ensures NewGameState(id, gameState, now).characterId == gameState.characterId
    ensures NewGameState(id, gameState, now).affectionLevel
         == if gameState.affectionLevel.Some? then Val(gameState.affectionLevel.value) else Val(0)
    ensures NewGameState(id, gameState, now).relationshipStatus
         == if gameState.relationshipStatus.Some? then Val(gameState.relationshipStatus.value) else Val("stranger")
    ensures NewGameState(id, gameState, now).conversationCount
         == if gameState.conversationCount.Some? then Val(gameState.conversationCount.value) else Val(0)
    ensures NewGameState(id, gameState, now).currentEmotion
         == if gameState.currentEmotion.Some? then Val(gameState.currentEmotion.value) else Val("neutral")
    ensures NewGameState(id, gameState, now).unlockedBackstories
         == if gameState.unlockedBackstories.Some? then Val(gameState.unlockedBackstories.value) else Val([])
    ensures NewGameState(id, gameState, now).lastSavedAt
         == if gameState.lastSavedAt.Some? then Val(gameState.lastSavedAt.value) else Null
    ensures NewGameState(id, gameState, now).settings
         == if gameState.settings.Some? then Val(gameState.settings.value) else Null
    ensures NewGameState(id, gameState, now).createdAt == Val(now)
    ensures NewGameState(id, gameState, now).updatedAt == Val(now)
  {
  }

  /** `Partial<GameState>` */
  datatype GameStatePatch = GameStatePatch(
    id: Option<int>,
    userId: Option<int>,
    characterId: Option<int>,
    affectionLevel: Option<Nullable<int>>,
    relationshipStatus: Option<Nullable<string>>,
    conversationCount: Option<Nullable<int>>,
    currentEmotion: Option<Nullable<string>>,
    unlockedBackstories: Option<Nullable<seq<string>>>,
    lastSavedAt: Option<Nullable<Time>>,
    settings: Option<Nullable<Settings>>,
    createdAt: Option<Nullable<Time>>,
    updatedAt: Option<Nullable<Time>>)

  /** `{ ...gameState, ...updates, updatedAt: now }`: the update's own
      `updatedAt`, if any, is overwritten. */
  function MergeGameState(gameState: GameState, updates: GameStatePatch, now: Time): (r: GameState) {
    GameState(
      OrElse(updates.id, gameState.id),
      OrElse(updates.userId, gameState.userId),
      OrElse(updates.characterId, gameState.characterId),
      OrElse(updates.affectionLevel, gameState.affectionLevel),
      OrElse(updates.relationshipStatus, gameState.relationshipStatus),
      OrElse(updates.conversationCount, gameState.conversationCount),
      OrElse(updates.currentEmotion, gameState.currentEmotion),
      OrElse(updates.unlockedBackstories, gameState.unlockedBackstories),
      OrElse(updates.lastSavedAt, gameState.lastSavedAt),
      OrElse(updates.settings, gameState.settings),
      OrElse(updates.createdAt, gameState.createdAt),
      Val(now))
  }

  /** A patch that names no field only refreshes the stamp. */
  lemma MergeGameStateEmpty(gameState: GameState, now: Time)
    ensures MergeGameState(gameState, GameStatePatch(None, None, None, None, None, None, None, None, None, None, None, None), now)
         == gameState.(updatedAt := Val(now))
  {
  }

  /** The stamp is always `now`, whatever the patch says about it. */
  lemma MergeGameStateStamps(gameState: GameState, updates: GameStatePatch, now: Time)
    ensures MergeGameState(gameState, updates, now).updatedAt == Val(now)
    ensures MergeGameState(gameState, updates, now) == MergeGameState(gameState, updates.(updatedAt := None), now)
  {
  }

  /** Every field the patch names, other than `updatedAt`, takes the patch's
      value; every other field keeps the stored value. */
  lemma MergeGameStateFields(gameState: GameState, updates: GameStatePatch, now: Time)
    ensures MergeGameState(gameState, updates, now).id
         == if updates.id.Some? then updates.id.value else gameState.id
    ensures MergeGameState(gameState, updates, now).userId
         == if updates.userId.Some? then updates.userId.value else gameState.userId
    ensures MergeGameState(gameState, updates, now).characterId
         == if updates.characterId.Some? then updates.characterId.value else gameState.characterId
    ensures MergeGameState(gameState, updates, now).affectionLevel
         == if updates.affectionLevel.Some? then updates.affectionLevel.value else gameState.affectionLevel
    ensures MergeGameState(gameState, updates, now).relationshipStatus
         == if updates.relationshipStatus.Some? then updates.relationshipStatus.value else gameState.relationshipStatus
    ensures MergeGameState(gameState, updates, now).conversationCount
         == if updates.conversationCount.Some? then updates.conversationCount.value else gameState.conversationCount
    ensures MergeGameState(gameState, updates, now).currentEmotion
         == if updates.currentEmotion.Some? then updates.currentEmotion.value else gameState.currentEmotion
    ensures MergeGameState(gameState, updates, now).unlockedBackstories
         == if updates.unlockedBackstories.Some? then updates.unlockedBackstories.value else gameState.unlockedBackstories
    ensures MergeGameState(gameState, updates, now).lastSavedAt
         == if updates.lastSavedAt.Some? then updates.lastSavedAt.value else gameState.lastSavedAt
    ensures MergeGameState(gameState, updates, now).settings
         == if updates.settings.Some? then updates.settings.value else gameState.settings
    ensures MergeGameState(gameState, updates, now).createdAt
         == if updates.createdAt.Some? then updates.createdAt.value else gameState.createdAt
  {
  }

  datatype Dialogue = Dialogue(
    id: int,
    gameStateId: int,
    speaker: string,
    message: string,
    messageType: string,
    affectionChange: Nullable<int>,
    emotionTriggered: Nullable<string>,
    backstoryId: Nullable<string>,
    timestamp: Nullable<Time>)

  datatype InsertDialogue = InsertDialogue(
    gameStateId: int,
    speaker: string,
    message: string,
    messageType: string,
    affectionChange: Option<int>,
    emotionTriggered: Option<string>,
    backstoryId: Option<string>)

  datatype SaveSlot = SaveSlot(
    id: int,
    userId: int,
    slotNumber: int,
    gameStateSnapshot: GameState,
    dialogueCount: Nullable<int>,
    characterName: string,
    affectionLevel: int,
    relationshipStatus: string,
    createdAt: Nullable<Time>,
    updatedAt: Nullable<Time>)

  datatype InsertSaveSlot = InsertSaveSlot(
    userId: int,
    slotNumber: int,
    gameStateSnapshot: GameState,
    dialogueCount: Nullable<int>,
    characterName: string,
    affectionLevel: int,
    relationshipStatus: string)

  /** The record `createSaveSlot` stores: the insert's fields under `id`,
      created and updated `now`. */
  function NewSaveSlot(id: int, saveSlot: InsertSaveSlot, now: Time): (r: SaveSlot) {
    SaveSlot(id, saveSlot.userId, saveSlot.slotNumber, saveSlot.gameStateSnapshot, saveSlot.dialogueCount,
             saveSlot.characterName, saveSlot.affectionLevel, saveSlot.relationshipStatus, Val(now), Val(now))
  }

  /** The sort keys and the owner of the records the store lists. */
  function DialogueTime(d: Dialogue): (r: int) { TimeKey(d.timestamp) }
  function GameStateTime(g: GameState): (r: int) { TimeKey(g.updatedAt) }
  function SaveSlotTime(s: SaveSlot): (r: int) { TimeKey(s.updatedAt) }
  function GameStateOwner(g: GameState): (r: int) { g.userId }
  function SaveSlotOwner(s: SaveSlot): (r: int) { s.userId }
}
