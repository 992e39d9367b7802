/** The initial-resources record: a counted list of length-prefixed names, one per
    transferred descriptor. Both workers run the same loop; they differ in the
    names they know, in the roles they need, and in that Safe 3 refuses a second
    display. */
module ResourceList {
  import opened Common
  import opened Wire

  const KIND_INITIAL_RESOURCES: byte := 0x01

  type Name = seq<byte>

  datatype Role = Display | DisplayControl | Buttons | Reconnect

  type Holdings = map<Role, Fd>

  function Ascii(s: string): Name {
    seq(|s|, i requires 0 <= i < |s| => s[i] as int % 256)
  }

  function RoleOf(v: Worker, n: Name): Option<Role> {
    if v.Legacy? && n in [Ascii("display-spi"), Ascii("display-i2c")] then Some(Display)
    else if v.Safe3? && n in [Ascii("display-ssd1306-i2c"), Ascii("display-sh1106-i2c"),
                              Ascii("display-sh1106-spi"), Ascii("display-st7789-spi")] then Some(Display)
    else if n == Ascii("display-control") then Some(DisplayControl)
    else if n == Ascii("buttons") then Some(Buttons)
    else if v.Safe3? && n == Ascii("reconnect-button") then Some(Reconnect)
    else None
  }

  function Required(v: Worker): set<Role> {
    if v.Safe3? then {Display, DisplayControl, Buttons, Reconnect} else {Display, DisplayControl, Buttons}
  }

  /** assign_resource; None is its exit. `selectable` holds the display names whose
      backend the worker agrees to select. */
  function Assign(v: Worker, selectable: set<Name>, h: Holdings, n: Name, fd: Fd): Option<Holdings> {
    match RoleOf(v, n)
    case None => None
    case Some(role) =>
      if v.Safe3? && role.Display? && (Display in h || n !in selectable) then None
      else Some(h[role := fd])
  }

  function AssignAll(v: Worker, selectable: set<Name>, ns: seq<Name>, fds: seq<Fd>): Option<Holdings>
    requires |ns| == |fds|
  {
    if ns == [] then Some(map[])
    else
      var k := |ns| - 1;
      match AssignAll(v, selectable, ns[..k], fds[..k])
      case None => None
      case Some(h) => Assign(v, selectable, h, ns[k], fds[k])
  }

  // ------------------------------------------------------------------ encoding

  predicate WellNamed(ns: seq<Name>) {
    |ns| < 0x1_0000 && forall i :: 0 <= i < |ns| ==> 1 <= |ns[i]| < 0x1_0000
  }

  function NamesBytes(ns: seq<Name>): seq<byte>
    requires forall i :: 0 <= i < |ns| ==> 1 <= |ns[i]| < 0x1_0000
  {
    if ns == [] then []
    else NamesBytes(ns[..|ns| - 1]) + ToBe16(|ns[|ns| - 1]|) + ns[|ns| - 1]
  }

  function Encode(ns: seq<Name>): seq<byte>
    requires WellNamed(ns)
  {
    ToBe16(|ns|) + NamesBytes(ns)
  }

  /** Name `i` of an encoding sits right behind the names before it. */
  lemma {:induction false} NameAt(ns: seq<Name>, i: nat)
    requires WellNamed(ns) && i < |ns|
    ensures StandsAt(NamesBytes(ns), |NamesBytes(ns[..i])|, ns[i])
  {
    if i < |ns| - 1 {
      var front := ns[..|ns| - 1];
      NameAt(front, i);
      assert front[..i] == ns[..i] && front[i] == ns[i];
      StaysInPrefix(NamesBytes(ns), NamesBytes(front), |NamesBytes(ns[..i])|, ns[i]);
    } else {
      LastNameAt(NamesBytes(ns[..i]), ns[i]);
    }
  }

  /** Name `n` stands at `at` in `b`. */
  predicate StandsAt(b: seq<byte>, at: nat, n: Name) {
    |n| < 0x1_0000 && at + 2 + |n| <= |b| && b[at..at + 2] == ToBe16(|n|) && b[at + 2..at + 2 + |n|] == n
  }

  lemma StaysInPrefix(b: seq<byte>, front: seq<byte>, at: nat, n: Name)
    requires front <= b && StandsAt(front, at, n)
    ensures StandsAt(b, at, n)
  {
    assert b[at..at + 2] == front[at..at + 2] && b[at + 2..at + 2 + |n|] == front[at + 2..at + 2 + |n|];
  }

  lemma LastNameAt(front: seq<byte>, n: Name)
    requires |n| < 0x1_0000
    ensures StandsAt(front + ToBe16(|n|) + n, |front|, n)
  {}

  /** Having read `done` off the front, the parser has read the first names of
      every list the body could encode. */
  lemma {:induction false} PrefixIsUnique(b: seq<byte>, done: seq<Name>, ns: seq<Name>)
    requires WellNamed(ns) && b == NamesBytes(ns)
    requires WellNamed(done) && |done| <= |ns|
    requires NamesBytes(done) <= b
    ensures done == ns[..|done|]
    decreases |done|
  {
    if done != [] {
      var k := |done| - 1;
      var front := done[..k];
      FrontIsPrefix(done);
      PrefixIsUnique(b, front, ns);
      NextIsSame(done, ns);
      assert done == front + [done[k]] && ns[..k + 1] == ns[..k] + [ns[k]];
    }
  }

  lemma FrontIsPrefix(done: seq<Name>)
    requires WellNamed(done) && done != []
    ensures var front := done[..|done| - 1];
      WellNamed(front) && NamesBytes(front) <= NamesBytes(done)
  {}

  lemma NextIsSame(done: seq<Name>, ns: seq<Name>)
    requires WellNamed(ns) && WellNamed(done) && 0 < |done| <= |ns| && NamesBytes(done) <= NamesBytes(ns)
    requires done[..|done| - 1] == ns[..|done| - 1]
    ensures done[|done| - 1] == ns[|done| - 1]
  {
    var k := |done| - 1;
    NameAt(ns, k);
    NameAt(done, k);
    SameLengthSameName(NamesBytes(ns), NamesBytes(done), |NamesBytes(ns[..k])|, ns[k], done[k]);
  }

  lemma SameLengthSameName(b: seq<byte>, prefix: seq<byte>, at: nat, n: Name, m: Name)
    requires prefix <= b && StandsAt(b, at, n) && StandsAt(prefix, at, m)
    ensures n == m
  {
    assert prefix[at..at + 2] == b[at..at + 2];
    assert Be16(ToBe16(|n|)) == Be16(ToBe16(|m|));
    assert prefix[at + 2..at + 2 + |m|] == b[at + 2..at + 2 + |m|];
  }

  lemma EncodeIsInjective(ns: seq<Name>, ms: seq<Name>)
    requires WellNamed(ns) && WellNamed(ms) && Encode(ns) == Encode(ms)
    ensures ns == ms
  {
    assert Encode(ns)[..2] == ToBe16(|ns|) && Encode(ms)[..2] == ToBe16(|ms|);
    assert Encode(ms)[2..] == NamesBytes(ms) && Encode(ns)[2..] == NamesBytes(ns);
    PrefixIsUnique(NamesBytes(ns), ms, ns);
  }

  /** The record is a well-formed announcement of these names and every one of them
      can be assigned. */
  ghost predicate Announces(v: Worker, selectable: set<Name>, r: Record, ns: seq<Name>) {
    && r.kind == KIND_INITIAL_RESOURCES && r.generation == 0 && r.requestId == 0
    && WellNamed(ns) && |ns| == |r.fds| && r.body == Encode(ns)
    && AssignAll(v, selectable, ns, r.fds).Some?
    && Required(v) <= AssignAll(v, selectable, ns, r.fds).value.Keys
  }

  /** The resource loop, after the header and the count have been checked. */
  method ReadNames(v: Worker, selectable: set<Name>, r: Record, count: u16)
    returns (held: Option<Holdings>, ghost done: seq<Name>)
    requires |r.body| >= 2 && Be16(r.body[..2]) == count == |r.fds|
    requires r.kind == KIND_INITIAL_RESOURCES && r.generation == 0 && r.requestId == 0
    ensures held.Some? ==> Announces(v, selectable, r, done) && held == AssignAll(v, selectable, done, r.fds)
    ensures held.None? ==> forall ns :: !Announces(v, selectable, r, ns)
  {
    var offset := 2;
    var h: Holdings := map[];
    done := [];
    for i := 0 to count
      invariant 2 <= offset <= |r.body| && |done| == i
      invariant Progress(v, selectable, r, done, offset, h)
    {
      var name := NextName(r.body, offset);
      OneMoreName(v, selectable, r, done, offset, h);
      if name.None? {
        return None, done;
      }
      var next := Assign(v, selectable, h, name.value, r.fds[i]);
      if next.None? {
        return None, done;
      }
      h, done, offset := next.value, done + [name.value], offset + 2 + |name.value|;
    }
    WholeBodyOrNothing(v, selectable, r, done, offset, h);
    if offset != |r.body| || !(Required(v) <= h.Keys) {
      return None, done;
    }
    return Some(h), done;
  }

  /** The constructor's (or `workerReceiveSupervisorResources`') checks: the record is
      accepted exactly when it announces some list of names, the whole body is consumed,
      and every name is paired with its own descriptor. */
  method ReceiveResources(v: Worker, selectable: set<Name>, r: Record) returns (held: Option<Holdings>)
    ensures held.Some? <==> exists ns :: Announces(v, selectable, r, ns)
    ensures forall ns :: Announces(v, selectable, r, ns) ==> held == AssignAll(v, selectable, ns, r.fds)
  {
    if r.kind != KIND_INITIAL_RESOURCES || r.generation != 0 || r.requestId != 0 || |r.body| < 2 {
      return None;
    }
    var count := Be16(r.body[..2]);
    if count != |r.fds| {
      CountIsAnnounced(v, selectable, r);
      return None;
    }
    ghost var done;
    held, done := ReadNames(v, selectable, r, count);
    forall ns | Announces(v, selectable, r, ns) && held.Some? ensures ns == done {
      EncodeIsInjective(ns, done);
    }
  }

  /** The parser is at `offset`, has read exactly `done`, and holds `h` for it. */
  predicate Progress(v: Worker, selectable: set<Name>, r: Record, done: seq<Name>, offset: nat, h: Holdings) {
    && HasRead(r.body, done, offset)
    && |done| <= |r.fds| && AssignAll(v, selectable, done, r.fds[..|done|]) == Some(h)
  }

  /** The two length checks of one round, and the name between them. */
  function NextName(body: seq<byte>, offset: nat): (n: Option<Name>)
    requires offset <= |body|
    ensures n.Some? ==> offset + 2 + |n.value| <= |body|
  {
    if offset + 2 > |body| then None
    else
      var length := Be16(body[offset..offset + 2]);
      if length == 0 || offset + 2 + length > |body| then None
      else Some(body[offset + 2..offset + 2 + length])
  }

  lemma OneMoreName(v: Worker, selectable: set<Name>, r: Record, done: seq<Name>, offset: nat, h: Holdings)
    requires Progress(v, selectable, r, done, offset, h) && |done| < |r.fds| < 0x1_0000
    ensures match NextName(r.body, offset)
      case None => forall ns :: !Announces(v, selectable, r, ns)
      case Some(name) =>
        match Assign(v, selectable, h, name, r.fds[|done|])
        case None => forall ns :: !Announces(v, selectable, r, ns)
        case Some(g) => Progress(v, selectable, r, done + [name], offset + 2 + |name|, g)
  {
    if NextName(r.body, offset).None? {
      TruncatedListIsRefused(v, selectable, r, done, offset);
    } else {
      OneReadName(v, selectable, r, done, offset, h);
    }
  }

  lemma ReadNextName(body: seq<byte>, done: seq<Name>, offset: nat)
    requires HasRead(body, done, offset) && |done| + 1 < 0x1_0000 && NextName(body, offset).Some?
    ensures var name := NextName(body, offset).value;
      HasRead(body, done + [name], offset + 2 + |name|)
  {
    ReadOneName(body, done, offset, |NextName(body, offset).value|);
  }

  lemma OneReadName(v: Worker, selectable: set<Name>, r: Record, done: seq<Name>, offset: nat, h: Holdings)
    requires Progress(v, selectable, r, done, offset, h) && |done| < |r.fds| < 0x1_0000
    requires NextName(r.body, offset).Some?
    ensures var name := NextName(r.body, offset).value;
      match Assign(v, selectable, h, name, r.fds[|done|])
      case None => forall ns :: !Announces(v, selectable, r, ns)
      case Some(g) => Progress(v, selectable, r, done + [name], offset + 2 + |name|, g)
  {
    var name := NextName(r.body, offset).value;
    ReadNextName(r.body, done, offset);
    AssignOneName(v, selectable, done, r.fds, name);
    if Assign(v, selectable, h, name, r.fds[|done|]).None? {
      RefusedNameRefusesAll(v, selectable, r, done + [name], offset + 2 + |name|);
    }
  }

  /** The parser is at `offset` and has read exactly these names. */
  predicate HasRead(body: seq<byte>, done: seq<Name>, offset: nat) {
    WellNamed(done) && 2 <= offset <= |body| && body[2..offset] == NamesBytes(done)
  }

  lemma CountIsAnnounced(v: Worker, selectable: set<Name>, r: Record)
    ensures forall ns :: Announces(v, selectable, r, ns) ==> |r.body| >= 2 && Be16(r.body[..2]) == |r.fds|
  {
    forall ns | Announces(v, selectable, r, ns) ensures |r.body| >= 2 && Be16(r.body[..2]) == |r.fds| {
      assert r.body[..2] == ToBe16(|ns|);
    }
  }

  lemma ReadOneName(body: seq<byte>, done: seq<Name>, offset: nat, length: u16)
    requires HasRead(body, done, offset) && |done| + 1 < 0x1_0000
    requires offset + 2 + length <= |body| && length >= 1
    requires Be16(body[offset..offset + 2]) == length
    ensures HasRead(body, done + [body[offset + 2..offset + 2 + length]], offset + 2 + length)
  {
    var name := body[offset + 2..offset + 2 + length];
    var more := done + [name];
    assert more[..|done|] == done;
    Be16Injective(body[offset..offset + 2]);
    assert body[2..offset + 2 + length] == body[2..offset] + body[offset..offset + 2] + name;
  }

  lemma AssignOneName(v: Worker, selectable: set<Name>, done: seq<Name>, fds: seq<Fd>, name: Name)
    requires |done| < |fds| && AssignAll(v, selectable, done, fds[..|done|]).Some?
    ensures var h := AssignAll(v, selectable, done, fds[..|done|]).value;
      AssignAll(v, selectable, done + [name], fds[..|done| + 1]) == Assign(v, selectable, h, name, fds[|done|])
  {
    var i := |done|;
    assert (done + [name])[..i] == done && fds[..i + 1][..i] == fds[..i];
  }

  /** If the body encodes any list, the parser never runs short of it. */
  lemma NextNameFits(body: seq<byte>, done: seq<Name>, ns: seq<Name>, offset: nat)
    requires HasRead(body, done, offset) && |done| < |ns|
    requires WellNamed(ns) && body == Encode(ns)
    ensures offset + 2 <= |body|
    ensures 1 <= Be16(body[offset..offset + 2]) <= |body| - offset - 2
  {
    var b, k := NamesBytes(ns), |done|;
    BodyTail(body, done, ns, offset);
    PrefixIsUnique(b, done, ns);
    NameAt(ns, k);
    assert |NamesBytes(done)| == offset - 2 && |body| == 2 + |b|;
    assert body[offset..offset + 2] == body[2..][offset - 2..offset];
    assert Be16(ToBe16(|ns[k]|)) == |ns[k]|;
  }

  lemma TruncatedListIsRefused(v: Worker, selectable: set<Name>, r: Record, done: seq<Name>, offset: nat)
    requires HasRead(r.body, done, offset) && |done| < |r.fds|
    requires offset + 2 > |r.body| || !(1 <= Be16(r.body[offset..offset + 2]) <= |r.body| - offset - 2)
    ensures forall ns :: !Announces(v, selectable, r, ns)
  {
    forall ns ensures !Announces(v, selectable, r, ns) {
      if Announces(v, selectable, r, ns) {
        NextNameFits(r.body, done, ns, offset);
      }
    }
  }

  lemma BodyTail(body: seq<byte>, done: seq<Name>, ns: seq<Name>, offset: nat)
    requires HasRead(body, done, offset) && WellNamed(ns) && body == Encode(ns)
    ensures body[2..] == NamesBytes(ns) && NamesBytes(done) <= NamesBytes(ns)
  {
    assert body[2..][..offset - 2] == body[2..offset];
  }

  lemma {:induction false} AssignAllOfPrefix(v: Worker, selectable: set<Name>, ns: seq<Name>, fds: seq<Fd>, i: nat)
    requires |ns| == |fds| && i <= |ns|
    ensures AssignAll(v, selectable, ns, fds).Some? ==> AssignAll(v, selectable, ns[..i], fds[..i]).Some?
    decreases |ns|
  {
    if i < |ns| {
      var k := |ns| - 1;
      AssignAllOfPrefix(v, selectable, ns[..k], fds[..k], i);
      assert ns[..k][..i] == ns[..i] && fds[..k][..i] == fds[..i];
    } else {
      assert ns[..i] == ns && fds[..i] == fds;
    }
  }

  lemma RefusedNameRefusesAll(v: Worker, selectable: set<Name>, r: Record, done: seq<Name>, offset: nat)
    requires HasRead(r.body, done, offset) && |done| <= |r.fds|
    requires AssignAll(v, selectable, done, r.fds[..|done|]).None?
    ensures forall ns :: !Announces(v, selectable, r, ns)
  {
    forall ns ensures !Announces(v, selectable, r, ns) {
      if Announces(v, selectable, r, ns) {
        BodyTail(r.body, done, ns, offset);
        PrefixIsUnique(NamesBytes(ns), done, ns);
        AssignAllOfPrefix(v, selectable, ns, r.fds, |done|);
      }
    }
  }

  lemma WholeBodyOrNothing(v: Worker, selectable: set<Name>, r: Record, done: seq<Name>, offset: nat, h: Holdings)
    requires |r.body| >= 2 && |done| == |r.fds| == Be16(r.body[..2])
    requires Progress(v, selectable, r, done, offset, h)
    requires r.kind == KIND_INITIAL_RESOURCES && r.generation == 0 && r.requestId == 0
    ensures AssignAll(v, selectable, done, r.fds) == Some(h)
    ensures if offset == |r.body| && Required(v) <= h.Keys then Announces(v, selectable, r, done)
            else forall ns :: !Announces(v, selectable, r, ns)
  {
    assert r.fds[..|done|] == r.fds;
    forall ns | Announces(v, selectable, r, ns) ensures ns == done && offset == |r.body| {
      BodyTail(r.body, done, ns, offset);
      PrefixIsUnique(NamesBytes(ns), done, ns);
    }
    Be16Injective(r.body[..2]);
    assert r.body == r.body[..2] + r.body[2..];
  }

  // ------------------------------------------------------- who holds what in the end

  /** Name `i` is the last one of this role. */
  predicate LastOf(v: Worker, ns: seq<Name>, role: Role, i: int) {
    0 <= i < |ns| && RoleOf(v, ns[i]) == Some(role) && forall j :: i < j < |ns| ==> RoleOf(v, ns[j]) != Some(role)
  }

  predicate Named(v: Worker, ns: seq<Name>, role: Role) {
    exists i :: 0 <= i < |ns| && RoleOf(v, ns[i]) == Some(role)
  }

  /** The last name's own step. */
  lemma LastAssignment(v: Worker, selectable: set<Name>, ns: seq<Name>, fds: seq<Fd>)
    requires ns != [] && |ns| == |fds| && AssignAll(v, selectable, ns, fds).Some?
    ensures var k := |ns| - 1;
      var before := AssignAll(v, selectable, ns[..k], fds[..k]);
      && before.Some? && RoleOf(v, ns[k]).Some?
      && AssignAll(v, selectable, ns, fds).value == before.value[RoleOf(v, ns[k]).value := fds[k]]
  {}

  lemma {:induction false} HeldIffNamed(v: Worker, selectable: set<Name>, ns: seq<Name>, fds: seq<Fd>, role: Role)
    requires |ns| == |fds| && AssignAll(v, selectable, ns, fds).Some?
    ensures role in AssignAll(v, selectable, ns, fds).value <==> Named(v, ns, role)
  {
    if ns != [] {
      var k := |ns| - 1;
      LastAssignment(v, selectable, ns, fds);
      HeldIffNamed(v, selectable, ns[..k], fds[..k], role);
      NamedFront(v, ns, role);
    }
  }

  lemma NamedFront(v: Worker, ns: seq<Name>, role: Role)
    requires ns != []
    ensures var k := |ns| - 1;
      Named(v, ns, role) <==> Named(v, ns[..k], role) || RoleOf(v, ns[k]) == Some(role)
  {
    var k := |ns| - 1;
    assert forall i :: 0 <= i < k ==> ns[..k][i] == ns[i];
  }

  lemma {:induction false} LastIsHeld(v: Worker, selectable: set<Name>, ns: seq<Name>, fds: seq<Fd>, role: Role, i: nat)
    requires |ns| == |fds| && AssignAll(v, selectable, ns, fds).Some? && LastOf(v, ns, role, i)
    ensures var h := AssignAll(v, selectable, ns, fds).value; role in h && h[role] == fds[i]
  {
    var k := |ns| - 1;
    LastAssignment(v, selectable, ns, fds);
    if i < k {
      assert forall j :: 0 <= j < k ==> ns[..k][j] == ns[j];
      assert LastOf(v, ns[..k], role, i) && RoleOf(v, ns[k]) != Some(role);
      LastIsHeld(v, selectable, ns[..k], fds[..k], role, i);
    }
  }

  /** The worker ends up with, for each role named at all, the descriptor that came
      with the last name of that role. */
  lemma {:induction false} EachRoleHoldsItsLastDescriptor(v: Worker, selectable: set<Name>, ns: seq<Name>, fds: seq<Fd>)
    requires |ns| == |fds| && AssignAll(v, selectable, ns, fds).Some?
    ensures var h := AssignAll(v, selectable, ns, fds).value;
      && (forall role :: role in h <==> Named(v, ns, role))
      && (forall role, i :: LastOf(v, ns, role, i) ==> role in h && h[role] == fds[i])
  {
    var h := AssignAll(v, selectable, ns, fds).value;
    forall role ensures role in h <==> Named(v, ns, role) {
      HeldIffNamed(v, selectable, ns, fds, role);
    }
    forall role, i | LastOf(v, ns, role, i) ensures role in h && h[role] == fds[i] {
      LastIsHeld(v, selectable, ns, fds, role, i);
    }
  }

  predicate DistinctRoles(v: Worker, ns: seq<Name>) {
    forall i, j :: 0 <= i < j < |ns| ==> RoleOf(v, ns[i]) != RoleOf(v, ns[j])
  }

  lemma DistinctRolesGrow(v: Worker, ns: seq<Name>, n: Name)
    ensures DistinctRoles(v, ns + [n]) <==>
      DistinctRoles(v, ns) && forall i :: 0 <= i < |ns| ==> RoleOf(v, ns[i]) != RoleOf(v, n)
  {
    var more := ns + [n];
    assert forall i :: 0 <= i < |ns| ==> more[i] == ns[i];
    assert more[|ns|] == n;
  }

  /** A repeated role silently drops the earlier descriptor, which nobody closes;
      Safe 3 refuses that only for the display. Every descriptor ends up held
      exactly when no role is repeated. */
  lemma {:induction false} NothingLeaksIffRolesDistinct(v: Worker, selectable: set<Name>, ns: seq<Name>, fds: seq<Fd>)
    requires |ns| == |fds| && AssignAll(v, selectable, ns, fds).Some?
    ensures var h := AssignAll(v, selectable, ns, fds).value;
      |h| <= |fds| && (|h| == |fds| <==> DistinctRoles(v, ns))
  {
    if ns != [] {
      var k := |ns| - 1;
      var front := ns[..k];
      LastAssignment(v, selectable, ns, fds);
      NothingLeaksIffRolesDistinct(v, selectable, front, fds[..k]);
      var last := RoleOf(v, ns[k]).value;
      HeldIffNamed(v, selectable, front, fds[..k], last);
      assert ns == front + [ns[k]];
      DistinctRolesGrow(v, front, ns[k]);
      HoldingOneMore(AssignAll(v, selectable, front, fds[..k]).value, last, fds[k]);
    }
  }

  lemma HoldingOneMore(g: Holdings, role: Role, fd: Fd)
    ensures |g[role := fd]| == |g| + (if role in g then 0 else 1)
  {
    var h := g[role := fd];
    assert h.Keys == g.Keys + {role};
    assert |h| == |h.Keys| && |g| == |g.Keys|;
  }

  lemma AssignNext(v: Worker, selectable: set<Name>, ns: seq<Name>, fds: seq<Fd>, n: Name, fd: Fd)
    requires |ns| == |fds| && AssignAll(v, selectable, ns, fds).Some?
    ensures AssignAll(v, selectable, ns + [n], fds + [fd])
         == Assign(v, selectable, AssignAll(v, selectable, ns, fds).value, n, fd)
  {
    assert (ns + [n])[..|ns|] == ns && (fds + [fd])[..|ns|] == fds;
  }

  /** A display, its control line and the buttons twice. */
  function ButtonsTwice(display: Name): seq<Name> {
    [display] + [Ascii("display-control")] + [Ascii("buttons")] + [Ascii("buttons")]
  }

  lemma ButtonsTwiceHeld(v: Worker, selectable: set<Name>, display: Name)
    requires RoleOf(v, display) == Some(Display) && display in selectable
    ensures AssignAll(v, selectable, ButtonsTwice(display), [5] + [6] + [7] + [8])
         == Some(map[Display := 5, DisplayControl := 6, Buttons := 8])
  {
    var c, b := Ascii("display-control"), Ascii("buttons");
    NamesHaveRoles(v);
    var none: seq<Name>, noFds: seq<Fd> := [], [];
    AssignNext(v, selectable, none, noFds, display, 5);
    assert none + [display] == [display] && noFds + [5] == [5];
    AssignNext(v, selectable, [display], [5], c, 6);
    AssignNext(v, selectable, [display] + [c], [5] + [6], b, 7);
    AssignNext(v, selectable, [display] + [c] + [b], [5] + [6] + [7], b, 8);
    var h: Holdings := map[Display := 5, DisplayControl := 6, Buttons := 7];
    assert h[Buttons := 8] == map[Display := 5, DisplayControl := 6, Buttons := 8];
  }

  lemma NamesHaveRoles(v: Worker)
    ensures RoleOf(v, Ascii("display-control")) == Some(DisplayControl) && RoleOf(v, Ascii("buttons")) == Some(Buttons)
    ensures RoleOf(Safe3, Ascii("reconnect-button")) == Some(Reconnect)
  {
    NameLengths();
  }

  lemma RepeatedRoleLeaks(v: Worker, selectable: set<Name>, ns: seq<Name>, fds: seq<Fd>, i: nat, j: nat)
    requires |ns| == |fds| && AssignAll(v, selectable, ns, fds).Some?
    requires i < j < |ns| && RoleOf(v, ns[i]) == RoleOf(v, ns[j])
    ensures |AssignAll(v, selectable, ns, fds).value| < |fds|
  {
    NothingLeaksIffRolesDistinct(v, selectable, ns, fds);
  }

  /** The worker accepts this announcement and ends up with fewer descriptors than it was
      sent. */
  ghost predicate AcceptsAndLeaks(v: Worker, selectable: set<Name>, ns: seq<Name>, fds: seq<Fd>) {
    WellNamed(ns) && |ns| == |fds| && AssignAll(v, selectable, ns, fds).Some?
    && Announces(v, selectable, Record(KIND_INITIAL_RESOURCES, 0, 0, Encode(ns), fds), ns)
    && |AssignAll(v, selectable, ns, fds).value| < |fds|
  }

  /** Complete announcements that both workers accept although "buttons" comes twice. */
  lemma RepeatedButtonsLeak()
    ensures AcceptsAndLeaks(Legacy, {Ascii("display-spi")}, ButtonsTwice(Ascii("display-spi")), [5] + [6] + [7] + [8])
    ensures var display := Ascii("display-ssd1306-i2c");
      AcceptsAndLeaks(Safe3, {display}, ButtonsTwice(display) + [Ascii("reconnect-button")],
                      [5] + [6] + [7] + [8] + [9])
  {
    LegacyLeaks();
    Safe3Leaks();
  }

  lemma LegacyLeaks()
    ensures AcceptsAndLeaks(Legacy, {Ascii("display-spi")}, ButtonsTwice(Ascii("display-spi")), [5] + [6] + [7] + [8])
  {
    var display := Ascii("display-spi");
    var ns, fds := ButtonsTwice(display), [5] + [6] + [7] + [8];
    ButtonsTwiceHeld(Legacy, {display}, display);
    NameLengths();
    RepeatedRoleLeaks(Legacy, {display}, ns, fds, 2, 3);
  }

  lemma Safe3Leaks()
    ensures var display := Ascii("display-ssd1306-i2c");
      AcceptsAndLeaks(Safe3, {display}, ButtonsTwice(display) + [Ascii("reconnect-button")],
                      [5] + [6] + [7] + [8] + [9])
  {
    var display := Ascii("display-ssd1306-i2c");
    var ns, fds := ButtonsTwice(display) + [Ascii("reconnect-button")], [5] + [6] + [7] + [8] + [9];
    NamesHaveRoles(Safe3);
    ButtonsTwiceHeld(Safe3, {display}, display);
    AssignNext(Safe3, {display}, ButtonsTwice(display), [5] + [6] + [7] + [8], Ascii("reconnect-button"), 9);
    NameLengths();
    RepeatedRoleLeaks(Safe3, {display}, ns, fds, 2, 3);
  }

  // ------------------------------------------------------ acceptance, name by name

  /** The names under which a display can come. */
  predicate IsDisplay(v: Worker, n: Name) {
    || (v.Legacy? && (n == Ascii("display-spi") || n == Ascii("display-i2c")))
    || (v.Safe3? && (n == Ascii("display-ssd1306-i2c") || n == Ascii("display-sh1106-i2c")))
    || (v.Safe3? && (n == Ascii("display-sh1106-spi") || n == Ascii("display-st7789-spi")))
  }

  predicate IsKnown(v: Worker, n: Name) {
    IsDisplay(v, n) || n == Ascii("display-control") || n == Ascii("buttons")
    || (v.Safe3? && n == Ascii("reconnect-button"))
  }

  /** A display, its control line and the buttons are there, and for Safe 3 the reconnect
      button. */
  predicate Complete(v: Worker, ns: seq<Name>) {
    && (exists i :: 0 <= i < |ns| && IsDisplay(v, ns[i]))
    && Ascii("display-control") in ns && Ascii("buttons") in ns
    && (v.Safe3? ==> Ascii("reconnect-button") in ns)
  }

  /** Every name is known; Safe 3 takes one display only, and only one it can select. */
  predicate Acceptable(v: Worker, selectable: set<Name>, ns: seq<Name>) {
    && (forall i :: 0 <= i < |ns| ==> IsKnown(v, ns[i]))
    && (v.Safe3? ==> forall i :: 0 <= i < |ns| && IsDisplay(v, ns[i]) ==> ns[i] in selectable)
    && (v.Safe3? ==> forall i, j :: 0 <= i < j < |ns| ==> !IsDisplay(v, ns[i]) || !IsDisplay(v, ns[j]))
  }

  /** No two roles share a name. */
  lemma RolesByName(v: Worker, n: Name)
    ensures RoleOf(v, n) == Some(Display) <==> IsDisplay(v, n)
    ensures RoleOf(v, n) == Some(DisplayControl) <==> n == Ascii("display-control")
    ensures RoleOf(v, n) == Some(Buttons) <==> n == Ascii("buttons")
    ensures RoleOf(v, n) == Some(Reconnect) <==> v.Safe3? && n == Ascii("reconnect-button")
    ensures RoleOf(v, n).Some? <==> IsKnown(v, n)
  {
    NameLengths();
  }

  lemma NameLengths()
    ensures |Ascii("display-spi")| == 11 == |Ascii("display-i2c")| && |Ascii("display-control")| == 15
    ensures |Ascii("buttons")| == 7 && |Ascii("reconnect-button")| == 16
    ensures |Ascii("display-ssd1306-i2c")| == 19 && |Ascii("display-sh1106-i2c")| == 18
    ensures |Ascii("display-sh1106-spi")| == 18 && |Ascii("display-st7789-spi")| == 18
  {}

  lemma {:induction false} AssignsExactly(v: Worker, selectable: set<Name>, ns: seq<Name>, fds: seq<Fd>)
    requires |ns| == |fds|
    ensures AssignAll(v, selectable, ns, fds).Some? <==> Acceptable(v, selectable, ns)
  {
    if ns != [] {
      var k := |ns| - 1;
      AssignsExactly(v, selectable, ns[..k], fds[..k]);
      RolesByName(v, ns[k]);
      AcceptableOneMore(v, selectable, ns);
      if AssignAll(v, selectable, ns[..k], fds[..k]).Some? {
        HeldIffNamed(v, selectable, ns[..k], fds[..k], Display);
        NamedDisplay(v, ns[..k]);
      }
    }
  }

  lemma AcceptableOneMore(v: Worker, selectable: set<Name>, ns: seq<Name>)
    requires ns != []
    ensures var k := |ns| - 1;
      Acceptable(v, selectable, ns) <==>
        && Acceptable(v, selectable, ns[..k]) && IsKnown(v, ns[k])
        && (v.Safe3? && IsDisplay(v, ns[k]) ==>
              ns[k] in selectable && forall i :: 0 <= i < k ==> !IsDisplay(v, ns[..k][i]))
  {
    var k := |ns| - 1;
    assert forall i :: 0 <= i < k ==> ns[..k][i] == ns[i];
  }

  lemma NamedDisplay(v: Worker, ns: seq<Name>)
    ensures Named(v, ns, Display) <==> exists i :: 0 <= i < |ns| && IsDisplay(v, ns[i])
  {
    forall i | 0 <= i < |ns| ensures RoleOf(v, ns[i]) == Some(Display) <==> IsDisplay(v, ns[i]) {
      RolesByName(v, ns[i]);
    }
  }

  lemma NamedByName(v: Worker, ns: seq<Name>)
    ensures Named(v, ns, DisplayControl) <==> Ascii("display-control") in ns
    ensures Named(v, ns, Buttons) <==> Ascii("buttons") in ns
    ensures Named(v, ns, Reconnect) <==> v.Safe3? && Ascii("reconnect-button") in ns
  {
    forall i | 0 <= i < |ns|
      ensures RoleOf(v, ns[i]) == Some(DisplayControl) <==> ns[i] == Ascii("display-control")
      ensures RoleOf(v, ns[i]) == Some(Buttons) <==> ns[i] == Ascii("buttons")
      ensures RoleOf(v, ns[i]) == Some(Reconnect) <==> v.Safe3? && ns[i] == Ascii("reconnect-button")
    {
      RolesByName(v, ns[i]);
    }
  }

  /** What makes a list of names an accepted announcement, in terms of the names alone: all of
      them are known, a Safe 3 worker sees one display and can select it, and display, control
      line, buttons and, for Safe 3, the reconnect button are there. */
  lemma AcceptedByName(v: Worker, selectable: set<Name>, r: Record, ns: seq<Name>)
    ensures Announces(v, selectable, r, ns) <==>
      && r.kind == 1 && r.generation == 0 && r.requestId == 0
      && WellNamed(ns) && |ns| == |r.fds| && r.body == Encode(ns)
      && Acceptable(v, selectable, ns) && Complete(v, ns)
  {
    if |ns| == |r.fds| {
      AssignsExactly(v, selectable, ns, r.fds);
      if AssignAll(v, selectable, ns, r.fds).Some? {
        HoldsRequired(v, selectable, ns, r.fds);
      }
    }
  }

  lemma HoldsRequired(v: Worker, selectable: set<Name>, ns: seq<Name>, fds: seq<Fd>)
    requires |ns| == |fds| && AssignAll(v, selectable, ns, fds).Some?
    ensures Required(v) <= AssignAll(v, selectable, ns, fds).value.Keys <==> Complete(v, ns)
  {
    var h := AssignAll(v, selectable, ns, fds).value;
    HeldIffNamed(v, selectable, ns, fds, Display);
    HeldIffNamed(v, selectable, ns, fds, DisplayControl);
    HeldIffNamed(v, selectable, ns, fds, Buttons);
    HeldIffNamed(v, selectable, ns, fds, Reconnect);
    NamedDisplay(v, ns);
    NamedByName(v, ns);
    assert Required(v) <= h.Keys <==>
      Display in h && DisplayControl in h && Buttons in h && (v.Safe3? ==> Reconnect in h);
  }
}
