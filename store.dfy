/**
 * The user and deck store behind the app: the `usuarios` collection (one document per user name)
 * and, under each user name, the `mazos` collection of saved decks. The document database is an
 * abstract pair of maps; `online` says whether a database client could be created at start-up.
 */
module Store {
  import opened Wrappers
  import Leveling
  import RegistrationForm

  /** One generated multiple-choice question; the store keeps it as it is and never looks inside. */
  datatype Question = Question(prompt: string, options: map<string, string>, answer: string, explanation: string)

  /** What the generator handed over as deck content: a list of questions, or something that is not a list. */
  datatype Content = QuestionList(questions: seq<Question>) | NotAList

  /** A saved deck: its questions and the subject and organ system it was generated for. */
  datatype Deck = Deck(questions: seq<Question>, subject: string, system: string)

  /**
   * A user document. Level and experience are optional because a document may lack them;
   * readers fall back to the defaults when a field is missing (a null field is not modelled).
   */
  datatype UserDoc = UserDoc(name: string, email: string, passwordHash: string, level: Option<string>, xp: Option<int>)

  /** Outcome of an account creation request. */
  datatype Registration = Registered | AlreadyExists | NotRegistered(reason: string)

  /** Outcome of submitting the sign-up form. */
  datatype FormOutcome = Rejected(verdict: RegistrationForm.Verdict) | Submitted(registration: Registration)

  const NoDatabaseReason: string := "Database not initialized. Cannot register."
  const NoDatabaseMessage: string := "Base de datos no disponible."
  const UserNotFoundMessage: string := "Usuario no encontrado."

  /** The rank a user document stands for, with the default when the field is missing. */
  function LevelOf(u: UserDoc): (level: string)
    ensures u.level.None? ==> level == Leveling.DefaultLevel
    ensures u.level.Some? ==> level == u.level.value
  {
    u.level.GetOr(Leveling.DefaultLevel)
  }

  /** The experience a user document stands for, with the default when the field is missing. */
  function XpOf(u: UserDoc): (xp: int)
    ensures u.xp.None? ==> xp == Leveling.DefaultXp
    ensures u.xp.Some? ==> xp == u.xp.value
  {
    u.xp.GetOr(Leveling.DefaultXp)
  }

  /** The document written for a new account: starts at the lowest rank with no experience. */
  function NewUser(name: string, email: string, passwordHash: string): (u: UserDoc)
    ensures LevelOf(u) == "Nivel 1 (Novato)" && XpOf(u) == 0
    ensures u.name == name && u.email == email && u.passwordHash == passwordHash
  {
    UserDoc(name, email, passwordHash, Some(Leveling.DefaultLevel), Some(Leveling.DefaultXp))
  }

  /**
   * The document after an exam outcome is recorded: both level and experience are written,
   * so a missing field is filled in with its default even when nothing else changes.
   */
  function Recorded(u: UserDoc, passed: bool): (r: UserDoc)
    ensures r.level.Some? && r.xp.Some?
    ensures r.name == u.name && r.email == u.email && r.passwordHash == u.passwordHash
  {
    var o := Leveling.Promote(LevelOf(u), XpOf(u), passed);
    u.(level := Some(o.level), xp := Some(o.xp))
  }

  /** Recording an outcome changes rank and experience as the leveling rule says and nothing else in the document. */
  lemma RecordedFollowsRule(u: UserDoc, passed: bool)
    ensures var o := Leveling.Promote(LevelOf(u), XpOf(u), passed);
      LevelOf(Recorded(u, passed)) == o.level && XpOf(Recorded(u, passed)) == o.xp
    ensures Recorded(u, passed).name == u.name && Recorded(u, passed).email == u.email
    ensures Recorded(u, passed).passwordHash == u.passwordHash
  {
  }

  /** A failed exam leaves the rank and experience a reader sees unchanged. */
  lemma FailKeepsStoredProgress(u: UserDoc)
    ensures LevelOf(Recorded(u, false)) == LevelOf(u) && XpOf(Recorded(u, false)) == XpOf(u)
  {
    Leveling.FailKeepsProgress(LevelOf(u), XpOf(u));
  }

  /** A freshly registered user who passes an exam becomes an "Estudiante" with 10 XP. */
  lemma NewUserFirstPass(name: string, email: string, passwordHash: string)
    ensures LevelOf(Recorded(NewUser(name, email, passwordHash), true)) == "Nivel 2 (Estudiante)"
    ensures XpOf(Recorded(NewUser(name, email, passwordHash), true)) == Leveling.PassReward
  {
    Leveling.PassBelowTopAdvances(0, 0);
  }

  /** The decks saved under `username`; none when the user has never saved one. */
  function DecksOf(decks: map<string, map<string, Deck>>, username: string): (r: map<string, Deck>)
    ensures username !in decks ==> r == map[]
    ensures username in decks ==> r == decks[username]
  {
    if username in decks then decks[username] else map[]
  }

  /** The deck collections after `deck` is written under `deckName` for `username`, replacing any deck of that name. */
  function PutDeck(decks: map<string, map<string, Deck>>, username: string, deckName: string, deck: Deck): (r: map<string, map<string, Deck>>)
    ensures r.Keys == decks.Keys + {username}
    ensures deckName in r[username] && r[username][deckName] == deck
    ensures forall other :: other in decks && other != username ==> r[other] == decks[other]
  {
    decks[username := DecksOf(decks, username)[deckName := deck]]
  }

  /** The deck collections after `deckName` is deleted for `username`; deleting a missing deck is a no-op. */
  function DropDeck(decks: map<string, map<string, Deck>>, username: string, deckName: string): (r: map<string, map<string, Deck>>)
    ensures r.Keys == decks.Keys
    ensures username in r ==> deckName !in r[username]
    ensures forall other :: other in decks && other != username ==> r[other] == decks[other]
  {
    if username in decks then decks[username := decks[username] - {deckName}] else decks
  }

  /** A written deck is read back under its name, the user's other decks and every other user's decks are untouched. */
  lemma PutDeckThenRead(decks: map<string, map<string, Deck>>, username: string, deckName: string, deck: Deck, other: string)
    ensures deckName in DecksOf(PutDeck(decks, username, deckName, deck), username)
    ensures DecksOf(PutDeck(decks, username, deckName, deck), username)[deckName] == deck
    ensures DecksOf(PutDeck(decks, username, deckName, deck), username) - {deckName} == DecksOf(decks, username) - {deckName}
    ensures other != username ==> DecksOf(PutDeck(decks, username, deckName, deck), other) == DecksOf(decks, other)
  {
  }

  /** A deleted deck is gone, the user's other decks and every other user's decks are untouched. */
  lemma DropDeckThenRead(decks: map<string, map<string, Deck>>, username: string, deckName: string, other: string)
    ensures DecksOf(DropDeck(decks, username, deckName), username) == DecksOf(decks, username) - {deckName}
    ensures other != username ==> DecksOf(DropDeck(decks, username, deckName), other) == DecksOf(decks, other)
  {
  }

  /** Saving a deck and then deleting it leaves the user's decks as they were without that name. */
  lemma PutThenDrop(decks: map<string, map<string, Deck>>, username: string, deckName: string, deck: Deck)
    ensures DecksOf(DropDeck(PutDeck(decks, username, deckName, deck), username, deckName), username)
         == DecksOf(decks, username) - {deckName}
  {
  }

  class Store {
    /** Whether a database client exists; fixed when the app starts. */
    const online: bool
    /** The `usuarios` collection: user name to user document. */
    var users: map<string, UserDoc>
    /** The `mazos` collections: user name to (deck name to deck). */
    var decks: map<string, map<string, Deck>>

    constructor (online: bool, users: map<string, UserDoc>, decks: map<string, map<string, Deck>>)
      ensures this.online == online && this.users == users && this.decks == decks
    {
      this.online := online;
      this.users := users;
      this.decks := decks;
    }

    /** `get_user_progress`: the stored rank and experience, or the defaults when there is no database or no such user. */
    method GetUserProgress(username: string) returns (level: string, xp: int)
      ensures online && username in users ==> level == LevelOf(users[username]) && xp == XpOf(users[username])
      ensures !online || username !in users ==> level == "Nivel 1 (Novato)" && xp == 0
    {
      if !online {
        return Leveling.DefaultLevel, Leveling.DefaultXp;
      }
      if username in users {
        var doc := users[username];
        return LevelOf(doc), XpOf(doc);
      }
      return Leveling.DefaultLevel, Leveling.DefaultXp;
    }

    /**
     * `update_user_level`: applies the leveling rule to the stored record and writes level and
     * experience back. Without a database, or for an unknown user, nothing is written and no level is returned.
     */
    method UpdateUserLevel(username: string, passed: bool) returns (level: Option<string>, msg: string)
      modifies this
      ensures decks == old(decks)
      ensures !online ==> level == None && msg == NoDatabaseMessage && users == old(users)
      ensures online && username !in old(users) ==> level == None && msg == UserNotFoundMessage && users == old(users)
      ensures online && username in old(users) ==>
        var o := Leveling.Promote(LevelOf(old(users)[username]), XpOf(old(users)[username]), passed);
        && level == Some(o.level) && msg == Leveling.Text(o.msg)
        && users == old(users)[username := Recorded(old(users)[username], passed)]
    {
      if !online {
        return None, NoDatabaseMessage;
      }
      if username !in users {
        return None, UserNotFoundMessage;
      }
      var doc := users[username];
      var outcome := Leveling.Promote(LevelOf(doc), XpOf(doc), passed);
      users := users[username := doc.(level := Some(outcome.level), xp := Some(outcome.xp))];
      level, msg := Some(outcome.level), Leveling.Text(outcome.msg);
    }

    /**
     * `register_new_user`: refuses a user name that already has a document; otherwise writes a
     * new document at the lowest rank with no experience. `passwordHash` is the password's hash,
     * computed by the caller.
     */
    method RegisterNewUser(name: string, email: string, username: string, passwordHash: string) returns (r: Registration)
      modifies this
      ensures decks == old(decks)
      ensures !online ==> r == NotRegistered(NoDatabaseReason) && users == old(users)
      ensures online && username in old(users) ==> r == AlreadyExists && users == old(users)
      ensures online && username !in old(users) ==> r == Registered && users == old(users)[username := NewUser(name, email, passwordHash)]
    {
      if !online {
        return NotRegistered(NoDatabaseReason);
      }
      if username in users {
        return AlreadyExists;
      }
      users := users[username := NewUser(name, email, passwordHash)];
      return Registered;
    }

    /**
     * The sign-up form's submit branch: the form's checks run first, and only input they
     * accept reaches the store.
     */
    method SubmitRegistration(name: string, email: string, username: string, password: string, confirmation: string, passwordHash: string)
      returns (r: FormOutcome)
      modifies this
      ensures decks == old(decks)
      ensures var v := RegistrationForm.Validate(name, email, username, password, confirmation);
        v != RegistrationForm.Accepted ==> r == Rejected(v) && users == old(users)
      ensures RegistrationForm.Validate(name, email, username, password, confirmation) == RegistrationForm.Accepted ==>
        && r == Submitted(if !online then NotRegistered(NoDatabaseReason)
                          else if username in old(users) then AlreadyExists
                          else Registered)
        && users == (if r.registration == Registered then old(users)[username := NewUser(name, email, passwordHash)] else old(users))
    {
      var verdict := RegistrationForm.Validate(name, email, username, password, confirmation);
      if verdict != RegistrationForm.Accepted {
        return Rejected(verdict);
      }
      var registration := RegisterNewUser(name, email, username, passwordHash);
      return Submitted(registration);
    }

    /** `get_user_decks`: the user's saved decks; none without a database or without a user name. */
    method GetUserDecks(username: string) returns (result: map<string, Deck>)
      ensures !online || username == "" ==> result == map[]
      ensures online && username != "" ==> result == DecksOf(decks, username)
    {
      if !online || username == "" {
        return map[];
      }
      result := DecksOf(decks, username);
    }

    /**
     * `save_user_deck`: refuses content that is not a list or is an empty list; otherwise writes
     * the deck under `deckName`, replacing any deck of that name.
     */
    method SaveUserDeck(username: string, deckName: string, content: Content, subject: string, system: string) returns (saved: bool)
      modifies this
      ensures users == old(users)
      ensures saved <==> online && username != "" && content.QuestionList? && |content.questions| > 0
      ensures saved ==> decks == PutDeck(old(decks), username, deckName, Deck(content.questions, subject, system))
      ensures !saved ==> decks == old(decks)
    {
      if !online || username == "" {
        return false;
      }
      if !content.QuestionList? || |content.questions| == 0 {
        return false;
      }
      decks := PutDeck(decks, username, deckName, Deck(content.questions, subject, system));
      return true;
    }

    /** `delete_user_deck`: removes the deck of that name, whether or not it existed. */
    method DeleteUserDeck(username: string, deckName: string) returns (deleted: bool)
      modifies this
      ensures users == old(users)
      ensures deleted <==> online && username != ""
      ensures deleted ==> decks == DropDeck(old(decks), username, deckName)
      ensures !deleted ==> decks == old(decks)
    {
      if !online || username == "" {
        return false;
      }
      decks := DropDeck(decks, username, deckName);
      return true;
    }
  }

  /** A new account reads back at the lowest rank; after one pass it reads back one rank higher with 10 XP. */
  method RegisterAndPass(name: string, email: string, username: string, passwordHash: string)
  {
    var store := new Store(true, map[], map[]);
    var r := store.RegisterNewUser(name, email, username, passwordHash);
    assert r == Registered;
    var level, xp := store.GetUserProgress(username);
    assert level == "Nivel 1 (Novato)" && xp == 0;
    var newLevel, msg := store.UpdateUserLevel(username, true);
    NewUserFirstPass(name, email, passwordHash);
    level, xp := store.GetUserProgress(username);
    assert newLevel == Some("Nivel 2 (Estudiante)") && level == "Nivel 2 (Estudiante)" && xp == 10;
    var again := store.RegisterNewUser(name, email, username, passwordHash);
    assert again == AlreadyExists;
  }
}
