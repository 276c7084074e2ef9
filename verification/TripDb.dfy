/** The trips that the enclave of the mobility service records for its users. */
module TripDb {
  import opened Wrappers

  type Secret = nat
  type Pseudonym = nat
  type TripId = nat

  datatype User = User(pseudonym: Pseudonym, nextShortTermSecret: Secret, currentTrip: Option<TripId>, trips: seq<TripId>)

  datatype Message =
    | Register(pseudonym: Pseudonym, shortTermSecret: Secret, longTermSecret: Secret)
    | Checkin(shortTermSecret: Secret, longTermSecret: Secret, nextShortTermSecret: Secret)
    | Checkout(shortTermSecret: Secret, longTermSecret: Secret, nextShortTermSecret: Secret)
    | Reset(longTermSecret: Secret, newShortTermSecret: Secret)
    | Reregister

  datatype Contents = Contents(nextTripId: TripId, users: map<Secret, User>, usedPseudonyms: set<Pseudonym>)

  const EMPTY := Contents(0, map[], {})

  /** An unknown user is taken in with the secret shown. */
  function Known(c: Contents, user: Secret, shortTermSecret: Secret): Contents {
    if user in c.users then c else c.(users := c.users[user := User(0, shortTermSecret, None, [])])
  }

  function CheckedIn(c: Contents, m: Message): (Contents, bool)
    requires m.Checkin? && m.longTermSecret in c.users
  {
    var user := c.users[m.longTermSecret];
    if user.nextShortTermSecret != m.shortTermSecret || user.currentTrip.Some? then (c, false)
    else (c.(nextTripId := c.nextTripId + 1,
             users := c.users[m.longTermSecret :=
               user.(nextShortTermSecret := m.nextShortTermSecret, currentTrip := Some(c.nextTripId))]), true)
  }

  function CheckedOut(c: Contents, m: Message): (Contents, bool)
    requires m.Checkout? && m.longTermSecret in c.users
  {
    var user := c.users[m.longTermSecret];
    if user.nextShortTermSecret != m.shortTermSecret || user.currentTrip.None? then (c, false)
    else (c.(users := c.users[m.longTermSecret :=
               user.(nextShortTermSecret := m.nextShortTermSecret, currentTrip := None,
                     trips := user.trips + [user.currentTrip.value])]), true)
  }

  /** The program does not handle a reset for an unknown user. */
  predicate Handled(c: Contents, m: Message) {
    m.Reset? ==> m.longTermSecret in c.users
  }

  /** The contents after a message, and whether it was accepted. */
  function Modified(c: Contents, m: Message): (Contents, bool)
    requires Handled(c, m)
  {
    match m
    case Register(pseudonym, shortTermSecret, longTermSecret) =>
      if pseudonym in c.usedPseudonyms || longTermSecret in c.users then (c, false)
      else (c.(usedPseudonyms := c.usedPseudonyms + {pseudonym},
               users := c.users[longTermSecret := User(pseudonym, shortTermSecret, None, [])]), true)
    case Checkin(shortTermSecret, longTermSecret, _) => CheckedIn(Known(c, longTermSecret, shortTermSecret), m)
    case Checkout(shortTermSecret, longTermSecret, _) => CheckedOut(Known(c, longTermSecret, shortTermSecret), m)
    case Reset(longTermSecret, newShortTermSecret) =>
      (c.(users := c.users[longTermSecret :=
        c.users[longTermSecret].(nextShortTermSecret := newShortTermSecret)]), true)
    case Reregister => (c, false)
  }

  // ---------------------------------------------------------------------------------------------
  // Conservation of trips

  /** Where a trip is recorded: running, or completed at some position of the user's list. */
  datatype Place = Running(user: Secret) | Completed(user: Secret, index: nat)

  ghost function TripAt(users: map<Secret, User>, place: Place): Option<TripId> {
    if place.user !in users then None
    else match place
      case Running(user) => users[user].currentTrip
      case Completed(user, index) => if index < |users[user].trips| then Some(users[user].trips[index]) else None
  }

  /** Each id handed out is recorded in a place. */
  ghost predicate AllRecorded(c: Contents) {
    forall id: TripId :: id < c.nextTripId ==> Recorded(c.users, id)
  }

  ghost predicate Recorded(users: map<Secret, User>, id: TripId) {
    exists place :: TripAt(users, place) == Some(id)
  }

  /** No other id is recorded. */
  ghost predicate OnlyHandedOut(c: Contents) {
    forall place :: TripAt(c.users, place).Some? ==> TripAt(c.users, place).value < c.nextTripId
  }

  /** No id is recorded in two places. */
  ghost predicate RecordedOnce(users: map<Secret, User>) {
    forall place, other :: TripAt(users, place).Some? && TripAt(users, place) == TripAt(users, other) ==> place == other
  }

  /** A user's trips are in the order of their check-ins, the running one last. */
  ghost predicate InOrder(user: User) {
    && (forall i, j :: 0 <= i < j < |user.trips| ==> user.trips[i] < user.trips[j])
    && (user.currentTrip.Some? ==> forall i :: 0 <= i < |user.trips| ==> user.trips[i] < user.currentTrip.value)
  }

  ghost predicate Conserved(c: Contents) {
    && AllRecorded(c) && OnlyHandedOut(c) && RecordedOnce(c.users)
    && (forall s :: s in c.users ==> InOrder(c.users[s]))
  }

  /** Users that differ only in their secrets and pseudonyms record the same trips. */
  lemma SameTripsConserved(c: Contents, c': Contents)
    requires Conserved(c) && c'.nextTripId == c.nextTripId && c.users.Keys <= c'.users.Keys
    requires forall s :: s in c'.users ==>
      if s in c.users then c'.users[s].currentTrip == c.users[s].currentTrip && c'.users[s].trips == c.users[s].trips
      else c'.users[s].currentTrip == None && c'.users[s].trips == []
    ensures Conserved(c')
  {
    assert forall place :: TripAt(c'.users, place) == TripAt(c.users, place);
    forall id: TripId | id < c'.nextTripId ensures Recorded(c'.users, id) {
      assert Recorded(c.users, id);
      var place :| TripAt(c.users, place) == Some(id);
      assert TripAt(c'.users, place) == Some(id);
    }
  }

  lemma CheckinConserves(c: Contents, m: Message)
    requires m.Checkin? && m.longTermSecret in c.users && Conserved(c)
    ensures Conserved(CheckedIn(c, m).0)
  {
    var c' := CheckedIn(c, m).0;
    if c' != c {
      var added := Running(m.longTermSecret);
      assert forall place :: TripAt(c'.users, place) == if place == added then Some(c.nextTripId) else TripAt(c.users, place);
      forall id: TripId | id < c'.nextTripId ensures Recorded(c'.users, id) {
        if id < c.nextTripId {
          assert Recorded(c.users, id);
          var place :| TripAt(c.users, place) == Some(id);
          assert TripAt(c'.users, place) == Some(id);
        } else {
          assert TripAt(c'.users, added) == Some(id);
        }
      }
      OrderAfterCheckin(c, m);
    }
  }

  lemma OrderAfterCheckin(c: Contents, m: Message)
    requires m.Checkin? && m.longTermSecret in c.users && Conserved(c)
    ensures forall s :: s in CheckedIn(c, m).0.users ==> InOrder(CheckedIn(c, m).0.users[s])
  {
    var user := c.users[m.longTermSecret];
    forall i | 0 <= i < |user.trips| ensures user.trips[i] < c.nextTripId {
      assert TripAt(c.users, Completed(m.longTermSecret, i)) == Some(user.trips[i]);
    }
  }

  /** Where a completed trip was before the user checked out. */
  ghost function Before(c: Contents, s: Secret, place: Place): Place
    requires s in c.users
  {
    if place == Completed(s, |c.users[s].trips|) then Running(s) else place
  }

  lemma CheckoutMoves(c: Contents, m: Message, place: Place)
    requires m.Checkout? && m.longTermSecret in c.users && CheckedOut(c, m).1
    ensures TripAt(CheckedOut(c, m).0.users, place)
            == if place == Running(m.longTermSecret) then None else TripAt(c.users, Before(c, m.longTermSecret, place))
  {
  }

  lemma CheckoutConserves(c: Contents, m: Message)
    requires m.Checkout? && m.longTermSecret in c.users && Conserved(c)
    ensures Conserved(CheckedOut(c, m).0)
  {
    var c', accepted := CheckedOut(c, m).0, CheckedOut(c, m).1;
    if accepted {
      var s := m.longTermSecret;
      forall place ensures TripAt(c'.users, place) == if place == Running(s) then None else TripAt(c.users, Before(c, s, place)) {
        CheckoutMoves(c, m, place);
      }
      forall id: TripId | id < c'.nextTripId ensures Recorded(c'.users, id) {
        assert Recorded(c.users, id);
        var place :| TripAt(c.users, place) == Some(id);
        var now := if place == Running(s) then Completed(s, |c.users[s].trips|) else place;
        assert TripAt(c'.users, now) == Some(id);
      }
    }
  }

  /** Every message conserves the trips. */
  lemma ModifyConserves(c: Contents, m: Message)
    requires Handled(c, m) && Conserved(c)
    ensures Conserved(Modified(c, m).0) && c.nextTripId <= Modified(c, m).0.nextTripId
  {
    match m
    case Register(_, _, _) => SameTripsConserved(c, Modified(c, m).0);
    case Checkin(shortTermSecret, longTermSecret, _) =>
      var known := Known(c, longTermSecret, shortTermSecret);
      SameTripsConserved(c, known);
      CheckinConserves(known, m);
    case Checkout(shortTermSecret, longTermSecret, _) =>
      var known := Known(c, longTermSecret, shortTermSecret);
      SameTripsConserved(c, known);
      CheckoutConserves(known, m);
    case Reset(_, _) => SameTripsConserved(c, Modified(c, m).0);
    case Reregister =>
  }

  ghost predicate HandledAll(c: Contents, messages: seq<Message>)
    decreases |messages|
  {
    messages == [] || (Handled(c, messages[0]) && HandledAll(Modified(c, messages[0]).0, messages[1..]))
  }

  ghost function ModifiedAll(c: Contents, messages: seq<Message>): Contents
    requires HandledAll(c, messages)
    decreases |messages|
  {
    if messages == [] then c else ModifiedAll(Modified(c, messages[0]).0, messages[1..])
  }

  lemma {:induction false} RunConserves(c: Contents, messages: seq<Message>)
    requires Conserved(c) && HandledAll(c, messages)
    ensures Conserved(ModifiedAll(c, messages))
    decreases |messages|
  {
    if messages != [] {
      ModifyConserves(c, messages[0]);
      RunConserves(Modified(c, messages[0]).0, messages[1..]);
    }
  }

  /** After any messages, each id below the next one is recorded in exactly one place and no other id is. */
  lemma TripsAreConserved(messages: seq<Message>)
    requires HandledAll(EMPTY, messages)
    ensures var c := ModifiedAll(EMPTY, messages);
            forall id: TripId :: if id < c.nextTripId then RecordedExactlyOnce(c.users, id) else !Recorded(c.users, id)
  {
    RunConserves(EMPTY, messages);
    var c := ModifiedAll(EMPTY, messages);
    forall id: TripId | id < c.nextTripId ensures RecordedExactlyOnce(c.users, id) {
      assert Recorded(c.users, id);
      var place :| TripAt(c.users, place) == Some(id);
      assert OnlyPlace(c.users, id, place);
    }
  }

  ghost predicate RecordedExactlyOnce(users: map<Secret, User>, id: TripId) {
    exists place :: OnlyPlace(users, id, place)
  }

  ghost predicate OnlyPlace(users: map<Secret, User>, id: TripId, place: Place) {
    forall other :: TripAt(users, other) == Some(id) <==> other == place
  }

  // ---------------------------------------------------------------------------------------------
  // Pseudonyms

  /** Users share a pseudonym only if it is zero, the one given to users who never registered. */
  ghost predicate PseudonymsOk(c: Contents) {
    && (forall s :: s in c.users && c.users[s].pseudonym != 0 ==> c.users[s].pseudonym in c.usedPseudonyms)
    && (forall s, t :: s in c.users && t in c.users && s != t && c.users[s].pseudonym == c.users[t].pseudonym ==>
          c.users[s].pseudonym == 0)
  }

  lemma ModifyKeepsPseudonyms(c: Contents, m: Message)
    requires Handled(c, m) && PseudonymsOk(c)
    ensures PseudonymsOk(Modified(c, m).0) && c.usedPseudonyms <= Modified(c, m).0.usedPseudonyms
  {
  }

  lemma {:induction false} PseudonymsStayUnique(c: Contents, messages: seq<Message>)
    requires PseudonymsOk(c) && HandledAll(c, messages)
    ensures PseudonymsOk(ModifiedAll(c, messages))
    decreases |messages|
  {
    if messages != [] {
      ModifyKeepsPseudonyms(c, messages[0]);
      PseudonymsStayUnique(Modified(c, messages[0]).0, messages[1..]);
    }
  }

  // ---------------------------------------------------------------------------------------------
  // Short-term secrets

  ghost predicate Concerns(m: Message, user: Secret) {
    !m.Reregister? && m.longTermSecret == user
  }

  /** Messages that concern other users leave a user's record as it is. */
  lemma {:induction false} OthersDoNotInterfere(c: Contents, messages: seq<Message>, user: Secret)
    requires HandledAll(c, messages) && forall m :: m in messages ==> !Concerns(m, user)
    ensures user in ModifiedAll(c, messages).users <==> user in c.users
    ensures user in c.users ==> ModifiedAll(c, messages).users[user] == c.users[user]
    decreases |messages|
  {
    if messages != [] {
      assert messages[0] in messages;
      OthersDoNotInterfere(Modified(c, messages[0]).0, messages[1..], user);
    }
  }

  /** The secret a user announced last. */
  ghost predicate Announced(c: Contents, user: Secret, secret: Secret) {
    user in c.users && c.users[user].nextShortTermSecret == secret
  }

  ghost predicate Travelling(c: Contents, user: Secret) {
    user in c.users && c.users[user].currentTrip.Some?
  }

  /**
   * A known user is checked in and out only with the secret announced last, whatever happened to
   * other users since. A message with another secret changes nothing.
   */
  lemma OnlyAnnouncedSecret(c: Contents, user: Secret, secret: Secret, others: seq<Message>, m: Message)
    requires Announced(c, user, secret) && HandledAll(c, others) && forall o :: o in others ==> !Concerns(o, user)
    requires (m.Checkin? || m.Checkout?) && m.longTermSecret == user
    ensures var now := ModifiedAll(c, others);
            && (Modified(now, m).1 <==> m.shortTermSecret == secret && (m.Checkout? <==> Travelling(c, user)))
            && (!Modified(now, m).1 ==> Modified(now, m).0 == now)
            && (Modified(now, m).1 ==> Announced(Modified(now, m).0, user, m.nextShortTermSecret)
                                       && (m.Checkin? <==> Travelling(Modified(now, m).0, user)))
  {
    OthersDoNotInterfere(c, others, user);
  }

  /** An unknown user is registered under an unused pseudonym, and the first check-in takes the secret registered. */
  lemma RegistrationAdmits(c: Contents, m: Message)
    requires m.Register?
    ensures Modified(c, m).1 <==> m.pseudonym !in c.usedPseudonyms && m.longTermSecret !in c.users
    ensures Modified(c, m).1 ==> Announced(Modified(c, m).0, m.longTermSecret, m.shortTermSecret)
                                 && !Travelling(Modified(c, m).0, m.longTermSecret)
  {
  }

  /**
   * A check-in and the check-out with the secret it announced record one completed trip, which has
   * the id that was next at the check-in, whatever other users do in between.
   */
  lemma JourneyIsRecorded(c: Contents, checkin: Message, others: seq<Message>, checkout: Message)
    requires checkin.Checkin? && Modified(c, checkin).1
    requires var now := Modified(c, checkin).0;
             HandledAll(now, others) && forall m :: m in others ==> !Concerns(m, checkin.longTermSecret)
    requires checkout.Checkout? && checkout.longTermSecret == checkin.longTermSecret
    requires checkout.shortTermSecret == checkin.nextShortTermSecret
    ensures var user := checkin.longTermSecret;
            var now := ModifiedAll(Modified(c, checkin).0, others);
            var before := if user in c.users then c.users[user].trips else [];
            && Modified(now, checkout).1
            && user in Modified(now, checkout).0.users
            && Modified(now, checkout).0.users[user].trips == before + [c.nextTripId]
            && !Travelling(Modified(now, checkout).0, user)
            && Announced(Modified(now, checkout).0, user, checkout.nextShortTermSecret)
  {
    OthersDoNotInterfere(Modified(c, checkin).0, others, checkin.longTermSecret);
  }

  // ---------------------------------------------------------------------------------------------
  // The database as the program keeps it

  class Db {
    var nextTripId: TripId
    var users: map<Secret, User>
    var usedPseudonyms: set<Pseudonym>

    ghost function Now(): Contents
      reads this
    {
      Contents(nextTripId, users, usedPseudonyms)
    }

    constructor ()
      ensures Now() == EMPTY && Conserved(Now()) && PseudonymsOk(Now())
    {
      nextTripId := 0;
      users := map[];
      usedPseudonyms := {};
    }

    method Modify(m: Message) returns (accepted: bool)
      requires Conserved(Now()) && PseudonymsOk(Now()) && Handled(Now(), m)
      modifies this
      ensures (Now(), accepted) == Modified(old(Now()), m)
      ensures Conserved(Now()) && PseudonymsOk(Now())
    {
      ModifyConserves(Now(), m);
      ModifyKeepsPseudonyms(Now(), m);
      hide Conserved, PseudonymsOk;
      match m
      case Register(pseudonym, shortTermSecret, longTermSecret) =>
        if pseudonym in usedPseudonyms {
          return false;
        }
        if longTermSecret in users {
          return false;
        }
        usedPseudonyms := usedPseudonyms + {pseudonym};
        users := users[longTermSecret := User(pseudonym, shortTermSecret, None, [])];
        accepted := true;
      case Checkin(shortTermSecret, longTermSecret, nextShortTermSecret) =>
        OrInsert(longTermSecret, shortTermSecret);
        var user := users[longTermSecret];
        if user.nextShortTermSecret != shortTermSecret || user.currentTrip.Some? {
          return false;
        }
        var tripId := nextTripId;
        nextTripId := nextTripId + 1;
        users := users[longTermSecret := user.(nextShortTermSecret := nextShortTermSecret, currentTrip := Some(tripId))];
        accepted := true;
      case Checkout(shortTermSecret, longTermSecret, nextShortTermSecret) =>
        OrInsert(longTermSecret, shortTermSecret);
        var user := users[longTermSecret];
        if user.nextShortTermSecret != shortTermSecret || user.currentTrip.None? {
          return false;
        }
        users := users[longTermSecret := user.(nextShortTermSecret := nextShortTermSecret, currentTrip := None,
                                               trips := user.trips + [user.currentTrip.value])];
        accepted := true;
      case Reset(longTermSecret, newShortTermSecret) =>
        users := users[longTermSecret := users[longTermSecret].(nextShortTermSecret := newShortTermSecret)];
        accepted := true;
      case Reregister =>
        accepted := false;
    }

    method OrInsert(user: Secret, shortTermSecret: Secret)
      modifies this`users
      ensures Now() == Known(old(Now()), user, shortTermSecret)
    {
      if user !in users {
        users := users[user := User(0, shortTermSecret, None, [])];
      }
    }
  }
}
