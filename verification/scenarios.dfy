/** Short sessions against a fresh store, following the calls the game's
    routes make, each with the outcome the store's contracts guarantee. */
module Scenarios {
  import opened Wrappers
  import opened Schema
  import opened Storage

  /** A partial game state update that leaves every field out. */
  const NoStateChanges: GameStatePatch :=
    GameStatePatch(None, None, None, None, None, None, None, None, None, None, None, None)

  /** A game state insert that leaves every optional field to its default. */
  function StartingState(userId: int, characterId: int): (r: InsertGameState) {
    InsertGameState(userId, characterId, None, None, None, None, None, None, None)
  }

  /** A fresh store lists the four seeded characters under ids 1 to 4, in
      seeding order. */
  method SeededCatalog() returns (ids: seq<int>)
    ensures ids == [1, 2, 3, 4]
  {
    var store := new MemStorage();
    var all := store.GetAllCharacters();
    ids := seq(|all|, i requires 0 <= i < |all| => all[i].id);
  }

  /** A new player registers and starts a game with Morty: the state takes
      the defaults, and crediting the first exchange changes only the fields
      the update names. */
  method NewGame() returns (start: GameState, updated: Result<GameState, StoreError>)
    ensures start.affectionLevel == Val(0) && start.relationshipStatus == Val("stranger")
    ensures start.conversationCount == Val(0) && start.currentEmotion == Val("neutral")
    ensures start.unlockedBackstories == Val([]) && start.characterId == 2
    ensures updated.Success? && updated.value.id == start.id
    ensures updated.value.affectionLevel == Val(2) && updated.value.conversationCount == Val(1)
    ensures updated.value == start.(affectionLevel := Val(2), conversationCount := Val(1), updatedAt := updated.value.updatedAt)
  {
    var store := new MemStorage();
    var player := store.CreateUser(InsertUser("MortySmith99", "secret", Null));
    start := store.CreateGameState(StartingState(player.id, 2));
    updated := store.UpdateGameState(start.id, NoStateChanges.(affectionLevel := Some(Val(2)), conversationCount := Some(Val(1))));
  }

  /** Three lines of a conversation: the history holds exactly those three,
      the last line first. */
  method Conversation() returns (opening: Dialogue, reply: Dialogue, latest: Dialogue, history: seq<Dialogue>)
    ensures |history| == 3 && history[0] == latest
    ensures multiset(history) == multiset{opening, reply, latest}
  {
    var store := new MemStorage();
    opening, reply, latest, history := ThreeLines(store, 5);
  }

  /** Three lines said in a game state that has none yet, then its history. */
  method ThreeLines(store: MemStorage, gameStateId: int)
    returns (opening: Dialogue, reply: Dialogue, latest: Dialogue, history: seq<Dialogue>)
    requires store.Valid() && gameStateId !in store.dialogues
    modifies store
    ensures |history| == 3 && history[0] == latest
    ensures multiset(history) == multiset{opening, reply, latest}
  {
    opening, reply, latest := SayThree(store, gameStateId);
    history := store.GetDialogues(gameStateId);
    ConversationPage(opening, reply, latest);
  }

  /** The three lines of the conversation, stored in the order said. */
  method SayThree(store: MemStorage, gameStateId: int) returns (opening: Dialogue, reply: Dialogue, latest: Dialogue)
    requires store.Valid() && gameStateId !in store.dialogues
    modifies store
    ensures store.Valid()
    ensures gameStateId in store.dialogues && store.dialogues[gameStateId] == [opening, reply, latest]
    ensures DialogueTime(opening) < DialogueTime(latest) && DialogueTime(reply) < DialogueTime(latest)
  {
    opening := store.CreateDialogue(InsertDialogue(gameStateId, "player", "Hey Morty!", "custom", None, None, None));
    assert store.dialogues[gameStateId] == [opening];
    reply := store.CreateDialogue(InsertDialogue(gameStateId, "character", "Oh geez, h-hi!", "character", Some(1), Some("nervous"), None));
    assert store.dialogues[gameStateId] == [opening, reply];
    latest := store.CreateDialogue(InsertDialogue(gameStateId, "player", "Want to go on an adventure?", "custom", None, None, None));
  }

  /** The default page of a three-line list whose last line is the newest
      holds exactly those lines, the last one first. */
  lemma ConversationPage(opening: Dialogue, reply: Dialogue, latest: Dialogue)
    requires DialogueTime(opening) < DialogueTime(latest) && DialogueTime(reply) < DialogueTime(latest)
    ensures |DialoguePage([opening, reply, latest], 50)| == 3
    ensures DialoguePage([opening, reply, latest], 50)[0] == latest
    ensures multiset(DialoguePage([opening, reply, latest], 50)) == multiset{opening, reply, latest}
  {
    assert [opening, reply] + [latest] == [opening, reply, latest];
    NewestDialogueFirst([opening, reply], latest);
    WholePage([opening, reply, latest], 50);
  }

  /** Unlocking the same backstory twice gives the same state as unlocking it
      once, and the backstory is listed exactly once. */
  method UnlockTwice() returns (first: Result<GameState, StoreError>, second: Result<GameState, StoreError>, listed: seq<string>)
    ensures first.Success? && second == first
    ensures listed == ["portal-gun-origin"]
  {
    var store := new MemStorage();
    var state := store.CreateGameState(StartingState(1, 1));
    first := store.UnlockBackstory(state.id, "portal-gun-origin");
    second := store.UnlockBackstory(state.id, "portal-gun-origin");
    listed := store.GetUnlockedBackstories(state.id);
  }

  /** Updates and unlocks of a game state that was never created throw
      "Game state not found"; updates of an unknown user throw "User not found". */
  method UnknownRecords() returns (
    stateUpdate: Result<GameState, StoreError>,
    unlock: Result<GameState, StoreError>,
    userUpdate: Result<User, StoreError>)
    ensures stateUpdate == Failure(NotFound("Game state not found"))
    ensures unlock == Failure(NotFound("Game state not found"))
    ensures userUpdate == Failure(NotFound("User not found"))
  {
    var store := new MemStorage();
    stateUpdate := store.UpdateGameState(42, NoStateChanges);
    unlock := store.UnlockBackstory(42, "first-adventure");
    var noChanges := UserPatch(None, None, None, None, None, None, None);
    userUpdate := store.UpdateUser(42, noChanges);
  }

  /** Two accounts may share a username; looking the name up finds the one
      registered first. */
  method SharedUsername() returns (first: User, second: User, found: Option<User>)
    ensures first.id != second.id && first.username == second.username
    ensures found == Some(first)
  {
    var store := new MemStorage();
    first := store.CreateUser(InsertUser("rick", "a", Null));
    second := store.CreateUser(InsertUser("rick", "b", Null));
    found := store.GetUserByUsername("rick");
  }

  /** Saving twice into the same slot keeps only the later save. */
  method SaveOverSlot(snapshot: GameState) returns (older: SaveSlot, newer: SaveSlot, loaded: Option<SaveSlot>)
    ensures older.id != newer.id
    ensures loaded == Some(newer)
  {
    var store := new MemStorage();
    older := store.CreateSaveSlot(InsertSaveSlot(7, 1, snapshot, Val(3), "Morty Smith", 2, "stranger"));
    newer := store.CreateSaveSlot(InsertSaveSlot(7, 1, snapshot, Val(9), "Morty Smith", 5, "friend"));
    loaded := store.GetSaveSlot(7, 1);
  }

  /** Deleting a slot that holds no save is no error and leaves it empty;
      deleting a saved slot empties it. */
  method DeleteSlots(snapshot: GameState) returns (missing: Option<SaveSlot>, two: SaveSlot, deleted: Option<SaveSlot>, kept: Option<SaveSlot>)
    ensures missing == None && deleted == None && kept == Some(two)
  {
    var store := new MemStorage();
    store.DeleteSaveSlot(7, 3);
    missing := store.GetSaveSlot(7, 3);
    var one := store.CreateSaveSlot(InsertSaveSlot(7, 1, snapshot, Null, "Evil Morty", 0, "stranger"));
    two := store.CreateSaveSlot(InsertSaveSlot(7, 2, snapshot, Null, "Evil Morty", 0, "stranger"));
    store.DeleteSaveSlot(7, 1);
    deleted := store.GetSaveSlot(7, 1);
    kept := store.GetSaveSlot(7, 2);
  }
}
