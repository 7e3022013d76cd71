/** clerkWebhooks.js: keeps the user collection in step with Clerk's user
    events. Svix signature checking is a parameter: `verified` is the payload
    `webhook.verify` returns, or `None` when it throws. */
module ClerkWebhooks {
  import opened Wrappers
  import opened Models
  import opened Store

  /** The `data` of a Clerk user event, reduced to the fields the handler reads. */
  datatype ClerkUserData = ClerkUserData(
    id: string,
    firstName: string,
    lastName: string,
    emailAddresses: seq<string>,
    imageUrl: string)

  datatype ClerkEvent = ClerkEvent(eventType: string, data: ClerkUserData)

  /** The verified payload: the event Clerk delivers at top level, and the
      payload's own `body` field, which a Clerk delivery does not have. */
  datatype ClerkPayload = ClerkPayload(event: ClerkEvent, body: Option<ClerkEvent>)

  const UserCreated: string := "user.created"
  const UserUpdated: string := "user.updated"
  const UserDeleted: string := "user.deleted"

  /** The display name the handler derives. */
  function DisplayName(data: ClerkUserData): (name: string)
    ensures |name| == |data.firstName| + 1 + |data.lastName| && Required(name)
    ensures name[|data.firstName|] == ' '
  {
    data.firstName + " " + data.lastName
  }

  /** The document the `user.created` branch hands to `User.create`: it has no
      `_id`, and its name sits under `username`, which the schema (with
      `userName`) does not know and drops. */
  function CreatedDocument(data: ClerkUserData): (u: User)
    requires data.emailAddresses != []
    ensures !UserValidates(u)
    ensures u.email == data.emailAddresses[0] && u.image == data.imageUrl
  {
    NewUser("", "", data.emailAddresses[0], data.imageUrl)
  }

  /** `clerkWebhooks` as written: it reads the event from `payload.body`. */
  function ClerkSpec(users: map<string, User>, verified: Option<ClerkPayload>)
    : (r: (int, map<string, User>))
    ensures r.0 == 200 || r.0 == 500
    ensures r.0 == 500 ==> r.1 == users
    ensures verified.None? || verified.value.body.None? ==> r.0 == 500
    ensures r.0 == 200 ==> verified.Some? && verified.value.body.Some?
    ensures r.0 == 200 ==> var e := verified.value.body.value;
      && e.eventType != UserCreated
      && (e.eventType == UserDeleted ==> r.1 == users - {e.data.id})
      && (e.eventType == UserUpdated ==>
            && e.data.emailAddresses != []
            && r.1.Keys == users.Keys
            && (forall u :: u in users && u != e.data.id ==> r.1[u] == users[u])
            && (e.data.id in users ==>
                  r.1[e.data.id] == users[e.data.id].(email := e.data.emailAddresses[0], image := e.data.imageUrl)))
      && (e.eventType != UserDeleted && e.eventType != UserUpdated ==> r.1 == users)
    // the reply for each event, once the payload carries a `body`
    ensures verified.Some? && verified.value.body.Some? ==>
      var e := verified.value.body.value;
      && (e.eventType == UserCreated ==> r == (500, users))
      && (e.eventType == UserUpdated ==> (r.0 == 200 <==> e.data.emailAddresses != []))
      && (e.eventType == UserDeleted ==> r == (200, users - {e.data.id}))
      && (e.eventType != UserCreated && e.eventType != UserUpdated && e.eventType != UserDeleted ==>
            r == (200, users))
  {
    if verified.None? || verified.value.body.None? then (500, users)
    else
      var e := verified.value.body.value;
      if e.eventType == UserCreated then
        if e.data.emailAddresses == [] then (500, users)
        else
          var doc := CreatedDocument(e.data);
          if !UserValidates(doc) then (500, users)
          else (200, users[doc.id := doc])
      else if e.eventType == UserUpdated then
        if e.data.emailAddresses == [] then (500, users)
        else if e.data.id in users then
          (200, users[e.data.id := users[e.data.id].(email := e.data.emailAddresses[0], image := e.data.imageUrl)])
        else (200, users)
      else if e.eventType == UserDeleted then (200, users - {e.data.id})
      else (200, users)
  }

  /** As written, a delivery shaped as Clerk sends it is answered 500 and
      changes nothing, whatever the event. */
  lemma ClerkDeliveryIsRejected(users: map<string, User>, event: ClerkEvent)
    ensures ClerkSpec(users, Some(ClerkPayload(event, None))) == (500, users)
  {
  }

  /** As written, even a payload that carries the event under `body` never
      creates a user: `user.created` always fails validation. */
  lemma CreatedNeverStores(users: map<string, User>, payload: ClerkPayload)
    requires payload.body.Some? && payload.body.value.eventType == UserCreated
    ensures ClerkSpec(users, Some(payload)) == (500, users)
  {
  }

  /** As written, `user.updated` never renames a user. */
  lemma UpdatedKeepsUserName(users: map<string, User>, payload: ClerkPayload)
    requires payload.body.Some? && payload.body.value.eventType == UserUpdated
    requires payload.body.value.data.id in users
    ensures var r := ClerkSpec(users, Some(payload));
            payload.body.value.data.id in r.1
            && r.1[payload.body.value.data.id].userName == users[payload.body.value.data.id].userName
  {
  }

  /** The handler as evidently intended: it reads the top-level event, creates
      the user under its Clerk id and keeps the name under `userName`. */
  function ClerkIntendedSpec(users: map<string, User>, verified: Option<ClerkPayload>)
    : (r: (int, map<string, User>))
    ensures r.0 == 200 || r.0 == 500
    ensures r.0 == 500 ==> r.1 == users
    ensures verified.None? ==> r.0 == 500
    ensures UsersKeyed(users) ==> UsersKeyed(r.1)
    ensures verified.Some? ==>
      var e := verified.value.event;
      && (e.eventType == UserCreated ==>
            (r.0 == 200 <==> e.data.emailAddresses != [] && Required(e.data.id)
                             && Required(e.data.emailAddresses[0]) && e.data.id !in users))
      && (e.eventType == UserUpdated ==> (r.0 == 200 <==> e.data.emailAddresses != []))
      && (e.eventType == UserDeleted ==> r == (200, users - {e.data.id}))
      && (e.eventType != UserCreated && e.eventType != UserUpdated && e.eventType != UserDeleted ==>
            r == (200, users))
  {
    if verified.None? then (500, users)
    else
      var e := verified.value.event;
      if e.eventType == UserCreated then
        if e.data.emailAddresses == [] then (500, users)
        else
          var u := NewUser(e.data.id, DisplayName(e.data), e.data.emailAddresses[0], e.data.imageUrl);
          if !UserValidates(u) || u.id in users then (500, users)
          else (200, users[u.id := u])
      else if e.eventType == UserUpdated then
        if e.data.emailAddresses == [] then (500, users)
        else if e.data.id in users then
          (200, users[e.data.id := users[e.data.id].(userName := DisplayName(e.data),
                                                      email := e.data.emailAddresses[0],
                                                      image := e.data.imageUrl)])
        else (200, users)
      else if e.eventType == UserDeleted then (200, users - {e.data.id})
      else (200, users)
  }

  /** Intended: a `user.created` delivery for a new id with an id and an
      email stores exactly the user Clerk describes. */
  lemma IntendedCreateStoresUser(users: map<string, User>, event: ClerkEvent)
    requires event.eventType == UserCreated
    requires event.data.emailAddresses != [] && Required(event.data.emailAddresses[0])
    requires Required(event.data.id) && event.data.id !in users
    ensures var r := ClerkIntendedSpec(users, Some(ClerkPayload(event, None)));
            && r.0 == 200
            && r.1 == users[event.data.id := NewUser(event.data.id, DisplayName(event.data),
                                                     event.data.emailAddresses[0], event.data.imageUrl)]
  {
  }

  /** Intended: `user.updated` renames the user, and a replay of the same
      delivery changes nothing more. */
  lemma IntendedUpdateIsIdempotent(users: map<string, User>, event: ClerkEvent)
    requires event.eventType == UserUpdated && event.data.emailAddresses != []
    requires event.data.id in users
    ensures var once := ClerkIntendedSpec(users, Some(ClerkPayload(event, None)));
            && once.0 == 200
            && once.1[event.data.id].userName == DisplayName(event.data)
            && ClerkIntendedSpec(once.1, Some(ClerkPayload(event, None))) == once
  {
    var once := ClerkIntendedSpec(users, Some(ClerkPayload(event, None)));
    var u := once.1[event.data.id];
    assert u.(userName := DisplayName(event.data), email := event.data.emailAddresses[0],
              image := event.data.imageUrl) == u;
    assert once.1[event.data.id := u] == once.1;
  }

  /** Intended: after `user.created` and `user.deleted` for the same new id the
      collection is as before. */
  lemma IntendedCreateThenDelete(users: map<string, User>, created: ClerkEvent, deleted: ClerkEvent)
    requires created.eventType == UserCreated && deleted.eventType == UserDeleted
    requires created.data.id == deleted.data.id && created.data.id !in users
    ensures ClerkIntendedSpec(ClerkIntendedSpec(users, Some(ClerkPayload(created, None))).1,
                              Some(ClerkPayload(deleted, None))).1 == users
  {
    var r := ClerkIntendedSpec(users, Some(ClerkPayload(created, None)));
    assert r.1 - {created.data.id} == users;
  }

  /** `clerkWebhooks` as the source runs it. */
  method HandleClerkWebhook(db: Database, verified: Option<ClerkPayload>) returns (status: int)
    requires db.Valid()
    modifies db
    ensures (status, db.users) == ClerkSpec(old(db.users), verified)
    ensures db.bookings == old(db.bookings) && db.rooms == old(db.rooms) && db.hotels == old(db.hotels)
    ensures db.Valid()
  {
    if verified.None? || verified.value.body.None? {
      return 500;
    }
    var e := verified.value.body.value;
    if e.eventType == UserCreated {
      if e.data.emailAddresses == [] {
        return 500;
      }
      // `User.create` rejects the document: it never validates (CreatedDocument).
      var doc := CreatedDocument(e.data);
      return 500;
    } else if e.eventType == UserUpdated {
      if e.data.emailAddresses == [] {
        return 500;
      }
      if e.data.id in db.users {
        db.users := db.users[e.data.id := db.users[e.data.id].(email := e.data.emailAddresses[0],
                                                               image := e.data.imageUrl)];
      }
    } else if e.eventType == UserDeleted {
      db.users := db.users - {e.data.id};
    }
    status := 200;
  }
}
