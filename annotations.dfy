/**
 * The annotations the viewer keeps: markers (public or private) and town
 * labels, and what creating, deleting and editing a marker does to the
 * lists, stated on values. The class in module Viewer is proved against
 * these functions.
 */
module Annotations {
  import opened Wrappers
  import opened Coords
  import opened Text
  import opened Session

  /** A point of interest: where it is, its type and its name. */
  datatype Marker = Marker(latlng: LatLng, kind: string, name: string)

  /** A settlement name shown on the map. */
  datatype TownLabel = TownLabel(latlng: LatLng, name: string)

  /** The three lists the page keeps in memory. */
  datatype Store = Store(publicMarkers: seq<Marker>, privateMarkers: seq<Marker>, townLabels: seq<TownLabel>)

  /** The marker types and the colour each is drawn in. */
  const Colors: map<string, string> := map[
    "house" := "red",
    "trader" := "orange",
    "tower" := "yellow",
    "tent" := "green",
    "safezone" := "blue",
    "infrastructure" := "purple"
  ]

  /** A type is accepted when it is one of the six keys of the colour table. */
  predicate IsValidType(kind: string) {
    kind in Colors
  }

  /** Exactly the six documented types are accepted, and each has a colour. */
  lemma ValidTypes(kind: string)
    ensures IsValidType(kind) <==>
      kind in {"house", "trader", "tower", "tent", "safezone", "infrastructure"}
    ensures IsValidType(kind) ==> Colors[kind] != ""
  {
  }

  /**
   * The properties every plain JavaScript object inherits from
   * Object.prototype; looking one of them up in the colour table yields a
   * truthy value.
   */
  const ObjectPrototypeKeys: set<string> := {
    "constructor", "__proto__", "hasOwnProperty", "isPrototypeOf",
    "propertyIsEnumerable", "toLocaleString", "toString", "valueOf",
    "__defineGetter__", "__defineSetter__", "__lookupGetter__", "__lookupSetter__"
  }

  /**
   * The type check as the page writes it: `colors[type]` is truthy. Every
   * marker type passes it, and off the inherited names it passes nothing else.
   */
  predicate ColorLookupTruthy(kind: string): (ok: bool)
    ensures IsValidType(kind) ==> ok
    ensures ok && kind !in ObjectPrototypeKeys ==> IsValidType(kind)
  {
    kind in Colors || kind in ObjectPrototypeKeys
  }

  /**
   * The check as written lets through types typed at the prompt that are no
   * marker type: "constructor" and "__proto__" (in any letter case, since the
   * answer is lower-cased).
   */
  lemma LookupAcceptsInheritedKey()
    ensures ColorLookupTruthy(ToLower("Constructor")) && !IsValidType(ToLower("Constructor"))
    ensures ColorLookupTruthy(ToLower("__PROTO__")) && !IsValidType(ToLower("__PROTO__"))
  {
    assert ToLower("Constructor") == "constructor";
    assert ToLower("__PROTO__") == "__proto__";
  }

  /** The check as written and the six-entry check agree on every other type. */
  lemma LookupAgreesOffPrototype(kind: string)
    requires kind !in ObjectPrototypeKeys
    ensures ColorLookupTruthy(kind) <==> IsValidType(kind)
  {
  }

  /** What creating a marker ends in. */
  datatype CreateOutcome =
    | InvalidType    // refused with "Invalid type."; nothing changes
    | Drawn          // drawn only (markers being loaded); nothing is added
    | AddedPublic    // appended to the public list
    | AddedPrivate   // appended to the private list, which is written to storage
    | NoSession      // nobody is logged in: reading the role throws, nothing is added

  /**
   * The outcome of createMarkerOnMap: an invalid type is refused first; a
   * valid one that is not new is only drawn; a new one goes public for an
   * admin or a mod, private for any other user, and fails with nobody logged in.
   */
  function CreateOutcomeOf(user: Option<User>, kind: string, isNew: bool): (o: CreateOutcome)
    ensures o == InvalidType <==> !IsValidType(kind)
    ensures o == Drawn <==> IsValidType(kind) && !isNew
    ensures o == AddedPublic <==> IsValidType(kind) && isNew && user.Some? && IsPrivileged(user.value.role)
    ensures o == AddedPrivate <==> IsValidType(kind) && isNew && user.Some? && !IsPrivileged(user.value.role)
    ensures o == NoSession <==> IsValidType(kind) && isNew && user.None?
  {
    if !IsValidType(kind) then InvalidType
    else if !isNew then Drawn
    else if user.None? then NoSession
    else if IsPrivileged(user.value.role) then AddedPublic
    else AddedPrivate
  }

  /**
   * The lists after createMarkerOnMap: a new marker of a valid type is
   * appended to the public list iff the user is an admin or a mod, to the
   * private list for any other user; in every other case nothing changes.
   */
  function AfterCreate(s: Store, user: Option<User>, m: Marker, isNew: bool): (r: Store)
    ensures !isNew || !IsValidType(m.kind) || user.None? ==> r == s
    ensures isNew && IsValidType(m.kind) && user.Some? && IsPrivileged(user.value.role) ==>
      r == s.(publicMarkers := s.publicMarkers + [m])
    ensures isNew && IsValidType(m.kind) && user.Some? && !IsPrivileged(user.value.role) ==>
      r == s.(privateMarkers := s.privateMarkers + [m])
  {
    match CreateOutcomeOf(user, m.kind, isNew)
    case AddedPublic => s.(publicMarkers := s.publicMarkers + [m])
    case AddedPrivate => s.(privateMarkers := s.privateMarkers + [m])
    case _ => s
  }

  /** Array.prototype.filter keeping the markers that are not at `at`. */
  function RemoveAt(ms: seq<Marker>, at: LatLng): (r: seq<Marker>)
    ensures |r| <= |ms|
    ensures forall m :: m in r ==> m in ms && m.latlng != at
    ensures forall m :: m in ms && m.latlng != at ==> m in r
  {
    if ms == [] then []
    else (if ms[0].latlng == at then [] else [ms[0]]) + RemoveAt(ms[1..], at)
  }

  /** Removing distributes over concatenation: the markers kept stay in their order. */
  lemma {:induction false} RemoveAtConcat(a: seq<Marker>, b: seq<Marker>, at: LatLng)
    ensures RemoveAt(a + b, at) == RemoveAt(a, at) + RemoveAt(b, at)
  {
    if a != [] {
      var head := if a[0].latlng == at then [] else [a[0]];
      assert (a + b)[0] == a[0];
      assert (a + b)[1..] == a[1..] + b;
      RemoveAtConcat(a[1..], b, at);
      assert RemoveAt(a + b, at) == head + (RemoveAt(a[1..], at) + RemoveAt(b, at));
      assert RemoveAt(a, at) == head + RemoveAt(a[1..], at);
    } else {
      assert a + b == b;
    }
  }

  /** With no marker at `at`, removing changes nothing. */
  lemma {:induction false} RemoveAtNothingThere(ms: seq<Marker>, at: LatLng)
    requires forall i :: 0 <= i < |ms| ==> ms[i].latlng != at
    ensures RemoveAt(ms, at) == ms
  {
    if ms != [] {
      RemoveAtNothingThere(ms[1..], at);
    }
  }

  /** Removing twice is removing once. */
  lemma RemoveAtIdempotent(ms: seq<Marker>, at: LatLng)
    ensures RemoveAt(RemoveAt(ms, at), at) == RemoveAt(ms, at)
  {
    var r := RemoveAt(ms, at);
    assert forall i :: 0 <= i < |r| ==> r[i] in r;
    RemoveAtNothingThere(r, at);
  }

  /** The lists after deleteMarker: both marker lists lose what is at `at`; towns stay. */
  function AfterDelete(s: Store, at: LatLng): (r: Store)
    ensures r.townLabels == s.townLabels
    ensures r.publicMarkers == RemoveAt(s.publicMarkers, at) && r.privateMarkers == RemoveAt(s.privateMarkers, at)
    ensures forall m :: m in r.publicMarkers <==> m in s.publicMarkers && m.latlng != at
    ensures forall m :: m in r.privateMarkers <==> m in s.privateMarkers && m.latlng != at
  {
    Store(RemoveAt(s.publicMarkers, at), RemoveAt(s.privateMarkers, at), s.townLabels)
  }

  /**
   * editMarker as written: with both answers given it deletes every marker
   * at the position first and then creates the new one, whatever creating
   * then does. Cancelling either prompt changes nothing; otherwise the
   * towns and the markers elsewhere stay, and the only marker left at the
   * position is the new one, if it was created at all.
   */
  function EditAsWritten(s: Store, user: Option<User>, lat: real, lng: real, newName: string, newType: string): (r: Store)
    ensures newName == "" || newType == "" ==> r == s
    ensures r.townLabels == s.townLabels
    ensures forall m :: m in s.publicMarkers && m.latlng != LatLng(lat, lng) ==> m in r.publicMarkers
    ensures forall m :: m in s.privateMarkers && m.latlng != LatLng(lat, lng) ==> m in r.privateMarkers
    ensures newName != "" && newType != "" ==>
      forall m :: (m in r.publicMarkers || m in r.privateMarkers) && m.latlng == LatLng(lat, lng) ==>
        m == Marker(LatLng(lat, lng), ToLower(newType), newName)
  {
    if newName == "" || newType == "" then s
    else AfterCreate(AfterDelete(s, LatLng(lat, lng)), user, Marker(LatLng(lat, lng), ToLower(newType), newName), true)
  }

  /**
   * When the new type is refused, or nobody is logged in, the edit as written
   * removes the markers at the position and puts nothing back.
   */
  lemma EditAsWrittenLoses(s: Store, user: Option<User>, lat: real, lng: real, newName: string, newType: string)
    requires newName != "" && newType != ""
    requires !IsValidType(ToLower(newType)) || user.None?
    ensures EditAsWritten(s, user, lat, lng, newName, newType) == AfterDelete(s, LatLng(lat, lng))
    ensures forall m :: m in s.privateMarkers && m.latlng == LatLng(lat, lng) ==>
      m !in EditAsWritten(s, user, lat, lng, newName, newType).privateMarkers
  {
  }

  /** A visitor who is not logged in edits their saved "Cabin": the private list ends up empty. */
  lemma EditBeforeLoginLosesCabin()
    ensures var cabin := Marker(LatLng(1000.0, 1000.0), "house", "Cabin");
      EditAsWritten(Store([], [cabin], []), None, 1000.0, 1000.0, "Cabin", "house") == Store([], [], [])
  {
    var cabin := Marker(LatLng(1000.0, 1000.0), "house", "Cabin");
    assert ToLower("house") == "house";
    assert RemoveAt([cabin], cabin.latlng) == [];
  }

  /**
   * editMarker as intended: the old marker goes only when the new one can be
   * created, so the lists either stay as they were or hold the new marker;
   * towns and markers elsewhere always stay.
   */
  function EditAtomic(s: Store, user: Option<User>, lat: real, lng: real, newName: string, newType: string): (r: Store)
    ensures r == s || Marker(LatLng(lat, lng), ToLower(newType), newName) in r.publicMarkers + r.privateMarkers
    ensures r.townLabels == s.townLabels
    ensures forall m :: m in s.publicMarkers && m.latlng != LatLng(lat, lng) ==> m in r.publicMarkers
    ensures forall m :: m in s.privateMarkers && m.latlng != LatLng(lat, lng) ==> m in r.privateMarkers
  {
    if newName == "" || newType == "" || !IsValidType(ToLower(newType)) || user.None? then s
    else AfterCreate(AfterDelete(s, LatLng(lat, lng)), user, Marker(LatLng(lat, lng), ToLower(newType), newName), true)
  }

  /**
   * The intended edit replaces exactly when both answers are given, the new
   * type is valid and someone is logged in: the markers at the position are
   * removed from both lists and the new marker is appended to the public list
   * for an admin or a mod, to the private list for anyone else. In every other
   * case the lists stay as they were.
   */
  lemma EditAtomicReplacesOrKeeps(s: Store, user: Option<User>, lat: real, lng: real, newName: string, newType: string)
    ensures var r := EditAtomic(s, user, lat, lng, newName, newType);
      var at := LatLng(lat, lng);
      var m := Marker(at, ToLower(newType), newName);
      if newName != "" && newType != "" && IsValidType(m.kind) && user.Some? then
        r.townLabels == s.townLabels
        && (IsPrivileged(user.value.role) ==>
              r.publicMarkers == RemoveAt(s.publicMarkers, at) + [m] && r.privateMarkers == RemoveAt(s.privateMarkers, at))
        && (!IsPrivileged(user.value.role) ==>
              r.publicMarkers == RemoveAt(s.publicMarkers, at) && r.privateMarkers == RemoveAt(s.privateMarkers, at) + [m])
      else r == s
  {
    var at := LatLng(lat, lng);
    var m := Marker(at, ToLower(newType), newName);
    if newName != "" && newType != "" && IsValidType(m.kind) && user.Some? {
      var d := AfterDelete(s, at);
      assert EditAtomic(s, user, lat, lng, newName, newType) == AfterCreate(d, user, m, true);
    }
  }

  /** Where the edit as written succeeds, it agrees with the intended edit. */
  lemma EditAgreesWhenCreated(s: Store, user: Option<User>, lat: real, lng: real, newName: string, newType: string)
    requires IsValidType(ToLower(newType)) && user.Some?
    ensures EditAsWritten(s, user, lat, lng, newName, newType) == EditAtomic(s, user, lat, lng, newName, newType)
  {
  }
}
