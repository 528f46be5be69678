/** User records and the replies that depend on them: the "call me" /
    "my name is" handler, the greeting and the who-am-i handler. The
    persistent store is a map from user id to record. */
module Users {
  import opened Options

  /** A stored record: its id, its `name` field if set, and whatever other
      fields the record holds. */
  datatype User = User(id: string, name: Option<string>, others: map<string, string>)

  /** `user && user.name` in JavaScript: a record exists and its name is a
      non-empty string (the empty string is falsy). */
  predicate HasName(u: Option<User>) {
    u.Some? && u.value.name.Some? && u.value.name.value != ""
  }

  function NameOf(u: Option<User>): string
    requires HasName(u)
  {
    u.value.name.value
  }

  /** Get-or-create, then set the name: an existing record keeps its id and
      its other fields; a missing one is created as `{id, name}`. */
  function WithName(existing: Option<User>, uid: string, name: string): (u: User)
    ensures u.name == Some(name)
    ensures existing.Some? ==> u.id == existing.value.id && u.others == existing.value.others
    ensures existing.None? ==> u == User(uid, Some(name), map[])
  {
    match existing
    case None => User(uid, Some(name), map[])
    case Some(v) => v.(name := Some(name))
  }

  /** Setting a name twice keeps only the last one. */
  lemma LastNameWins(existing: Option<User>, uid: string, first: string, second: string)
    ensures WithName(Some(WithName(existing, uid, first)), uid, second) == WithName(existing, uid, second)
  {
  }

  /** Every record is stored under its own id. */
  ghost predicate Keyed(users: map<string, User>) {
    forall k :: k in users ==> users[k].id == k
  }

  /** `controller.storage.users.get`. */
  function Find(users: map<string, User>, uid: string): (u: Option<User>)
    ensures u.Some? <==> uid in users
    ensures u.Some? ==> u.value == users[uid]
  {
    if uid in users then Some(users[uid]) else None
  }

  /** The store after the name of `uid` has been set and the record saved. */
  function StoreName(users: map<string, User>, uid: string, name: string): (s: map<string, User>)
    requires Keyed(users)
    ensures Keyed(s)
    ensures s.Keys == users.Keys + {uid}
    ensures s[uid].name == Some(name) && s[uid].id == uid
    ensures uid in users ==> s[uid].others == users[uid].others
    ensures forall k :: k in users && k != uid ==> s[k] == users[k]
  {
    var u := WithName(Find(users, uid), uid, name);
    users[u.id := u]
  }

  function SavedText(name: string): string {
    "Got it. I will call you " + name + " from now on."
  }

  /** The greeting: "Hello <name>!!" when a name is stored, "Hello." otherwise. */
  function HelloText(u: Option<User>): (s: string)
    ensures HasName(u) ==> s == "Hello " + NameOf(u) + "!!"
    ensures !HasName(u) ==> s == "Hello."
  {
    if HasName(u) then "Hello " + NameOf(u) + "!!" else "Hello."
  }

  datatype WhoAmIAction =
    | TellName(text: string)   // reply with the stored name, no conversation
    | AskForNickname           // open the nickname conversation

  /** The who-am-i handler: tell the stored name, or ask for one. */
  function WhoAmI(u: Option<User>): (a: WhoAmIAction)
    ensures a.TellName? <==> HasName(u)
    ensures HasName(u) ==> a.text == "Your name is " + NameOf(u)
  {
    if HasName(u) then TellName("Your name is " + NameOf(u)) else AskForNickname
  }

  /** After "call me <name>" with a non-empty name, the greeting and
      who-am-i both use that name, and who-am-i opens no conversation. */
  lemma NameIsRemembered(users: map<string, User>, uid: string, name: string)
    requires Keyed(users) && name != ""
    ensures HelloText(Find(StoreName(users, uid, name), uid)) == "Hello " + name + "!!"
    ensures WhoAmI(Find(StoreName(users, uid, name), uid)) == TellName("Your name is " + name)
  {
    var u := Find(StoreName(users, uid, name), uid);
    assert HasName(u) && NameOf(u) == name;
  }

  /** "call me" with an empty name is stored, but counts as no name. */
  lemma EmptyNameIsNoName(users: map<string, User>, uid: string)
    requires Keyed(users)
    ensures HelloText(Find(StoreName(users, uid, ""), uid)) == "Hello."
    ensures WhoAmI(Find(StoreName(users, uid, ""), uid)) == AskForNickname
  {
    assert !HasName(Find(StoreName(users, uid, ""), uid));
  }

  /** Saving a name changes no other user's greeting. */
  lemma OthersUnaffected(users: map<string, User>, uid: string, name: string, other: string)
    requires Keyed(users) && other != uid
    ensures Find(StoreName(users, uid, name), other) == Find(users, other)
  {
  }

  /** The user store, updated in place by the handlers. */
  class UserStore {
    var users: map<string, User>

    ghost predicate Valid()
      reads this
    {
      Keyed(users)
    }

    constructor ()
      ensures Valid() && users == map[]
    {
      users := map[];
    }

    /** `storage.users.save`: stores a record under its own id. */
    method Save(u: User)
      requires Valid()
      modifies this
      ensures Valid()
      ensures users == old(users)[u.id := u]
    {
      users := users[u.id := u];
    }

    /** The "call me <name>" handler: get the record or create
        `{id: uid}`, set its name, save it and confirm. */
    method CallMe(uid: string, name: string) returns (reply: string)
      requires Valid()
      modifies this
      ensures Valid()
      ensures users == StoreName(old(users), uid, name)
      ensures reply == SavedText(name)
    {
      var user: User;
      if uid in users {
        user := users[uid];
      } else {
        user := User(uid, None, map[]);
      }
      user := user.(name := Some(name));
      Save(user);
      reply := SavedText(user.name.value);
    }

    /** The hello handler's reply for `uid`. */
    method Hello(uid: string) returns (reply: string)
      ensures reply == HelloText(Find(users, uid))
    {
      var user := Find(users, uid);
      if user.Some? && user.value.name.Some? && user.value.name.value != "" {
        reply := "Hello " + user.value.name.value + "!!";
      } else {
        reply := "Hello.";
      }
    }

    /** The who-am-i handler's decision for `uid`. */
    method WhoAmIFor(uid: string) returns (action: WhoAmIAction)
      ensures action == WhoAmI(Find(users, uid))
    {
      var user := Find(users, uid);
      if user.Some? && user.value.name.Some? && user.value.name.value != "" {
        action := TellName("Your name is " + user.value.name.value);
      } else {
        action := AskForNickname;
      }
    }
  }
}
