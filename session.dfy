/**
 * Who is logged in, and what each role may do. The credential table is
 * fixed in the page; a login never fails: credentials that match no entry
 * give a "player" under the submitted name.
 */
module Session {
  import opened Wrappers

  datatype Role = Admin | Mod | Player

  /** An entry of the credential table. */
  datatype Account = Account(username: string, password: string, role: Role)

  /** The current user: a table entry's name and role, or a player under any name. */
  datatype User = User(username: string, role: Role)

  /** The two configured accounts, in table order. */
  const Users: seq<Account> := [
    Account("Kingosp4de", "BlaiseKey2026", Admin),
    Account("Xzyus", "HitByAAda4x4", Mod)
  ]

  predicate Matches(a: Account, u: string, p: string) {
    a.username == u && a.password == p
  }

  /** Array.prototype.find over the table from index `from`: the first entry matching both fields. */
  function FindFrom(table: seq<Account>, u: string, p: string, from: nat): (r: Option<nat>)
    requires from <= |table|
    decreases |table| - from
    ensures r.Some? ==> from <= r.value < |table| && Matches(table[r.value], u, p)
    ensures r.Some? ==> forall j :: from <= j < r.value ==> !Matches(table[j], u, p)
    ensures r.None? ==> forall j :: from <= j < |table| ==> !Matches(table[j], u, p)
  {
    if from == |table| then None
    else if Matches(table[from], u, p) then Some(from)
    else FindFrom(table, u, p, from + 1)
  }

  /**
   * The user a login produces: the first table entry whose name and password
   * both match, role included; otherwise a player keeping the submitted name.
   */
  function Resolve(u: string, p: string): (user: User)
    ensures user.username == u
    ensures (exists i :: 0 <= i < |Users| && Matches(Users[i], u, p)) ==>
      exists i :: 0 <= i < |Users| && Matches(Users[i], u, p)
        && (forall j :: 0 <= j < i ==> !Matches(Users[j], u, p))
        && user == User(Users[i].username, Users[i].role)
    ensures (forall i :: 0 <= i < |Users| ==> !Matches(Users[i], u, p)) ==> user.role == Player
  {
    match FindFrom(Users, u, p, 0)
    case Some(i) => User(Users[i].username, Users[i].role)
    case None => User(u, Player)
  }

  /** With this table the roles come out as configured: only the exact pairs are privileged. */
  lemma ResolveRoles(u: string, p: string)
    ensures Resolve(u, p).role == Admin <==> u == "Kingosp4de" && p == "BlaiseKey2026"
    ensures Resolve(u, p).role == Mod <==> u == "Xzyus" && p == "HitByAAda4x4"
  {
    if u == "Kingosp4de" && p == "BlaiseKey2026" {
      assert Matches(Users[0], u, p);
    } else if u == "Xzyus" && p == "HitByAAda4x4" {
      assert Matches(Users[1], u, p);
      assert !Matches(Users[0], u, p);
    } else {
      assert forall i :: 0 <= i < |Users| ==> !Matches(Users[i], u, p);
    }
  }

  /** Admins and mods publish what they place; everyone else keeps it private. */
  predicate IsPrivileged(role: Role) {
    role == Admin || role == Mod
  }

  /** Marker placement needs someone logged in, whatever the role. */
  predicate CanPlaceMarker(user: Option<User>) {
    user.Some?
  }

  /** Town placement needs an admin or a mod. */
  predicate CanPlaceTown(user: Option<User>): (ok: bool)
    ensures ok ==> CanPlaceMarker(user)
    ensures ok <==> CanPlaceMarker(user) && user.value.role != Player
  {
    user.Some? && IsPrivileged(user.value.role)
  }

  /** Both exports need an admin. */
  predicate CanExport(user: Option<User>): (ok: bool)
    ensures ok ==> CanPlaceTown(user)
    ensures ok <==> CanPlaceTown(user) && user.value.role != Mod
  {
    user.Some? && user.value.role == Admin
  }

  /**
   * Each role stops at its own gate (the nesting itself is stated by
   * CanPlaceTown and CanExport): a mod may place towns but not export, a
   * player may place markers but not towns.
   */
  lemma GatesNested(user: Option<User>)
    ensures user.Some? && user.value.role == Mod ==> CanPlaceTown(user) && !CanExport(user)
    ensures user.Some? && user.value.role == Player ==> CanPlaceMarker(user) && !CanPlaceTown(user)
  {
  }
}
