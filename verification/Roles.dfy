/** The roles task: member counts, and a capped read of the members behind them. */
module Roles {
  import opened Bytes
  import opened Wrappers
  import opened Abi
  import opened Keys
  import opened Client
  import opened Server
  import opened Config
  import opened Metrics
  import opened Tallies

  datatype Line = Members(role: string, count: nat)

  datatype Finding =
    | CountUnread(role: string, error: string)
    | MembersUnread(role: string, error: string)
    | TooManyHolders(role: string, count: nat)

  const CAP: uint64 := 50

  predicate IsPrivileged(role: string) {
    role == "CONFIG_KEEPER" || role == "TIMELOCK_ADMIN" || role == "TIMELOCK_MULTISIG" || role == "GOV_TOKEN_CONTROLLER"
  }

  /** What this run's reads return: a role's count, and its members from start to end. */
  datatype Reads = Reads(count: string -> Result<uint64>, members: (string, uint64, uint64) -> Result<Decoded>)

  /** What is reported about one role, or that decoding its members panicked. */
  datatype Verdict = Said(lines: seq<Line>, findings: seq<Finding>) | Crashed

  const SHORT_PAYLOAD := "decodeAddressArray: short payload"
  const BODY_TOO_SHORT := "decodeAddressArray: body too short"

  /** The error a member read ends in, if any. */
  function MembersError(r: Result<Decoded>): Option<string> {
    match r
    case Err(e) => Some(e)
    case Ok(ShortPayload) => Some(SHORT_PAYLOAD)
    case Ok(BodyTooShort(_)) => Some(BODY_TOO_SHORT)
    case Ok(_) => None
  }

  function Capped(count: uint64): uint64 {
    if count > CAP then CAP else count
  }

  function VerdictOn(got: Reads, role: string): Verdict {
    match got.count(role)
    case Err(e) => Said([], [CountUnread(role, e)])
    case Ok(count) =>
      if count == 0 then Said([Members(role, 0)], []) else
        var members := got.members(role, 0, Capped(count));
        if members == Ok(Panicked) then Crashed
        else if MembersError(members).Some? then Said([], [MembersUnread(role, MembersError(members).value)])
        else Said([Members(role, count)], if IsPrivileged(role) && count > 5 then [TooManyHolders(role, count)] else [])
  }

  /** Roles in configuration order, up to a crash. */
  function VerdictOnAll(got: Reads, roles: seq<string>): Verdict {
    if roles == [] then Said([], []) else
      var init, last := VerdictOnAll(got, roles[..|roles| - 1]), VerdictOn(got, roles[|roles| - 1]);
      if init.Crashed? || last.Crashed? then Crashed
      else Said(init.lines + last.lines, init.findings + last.findings)
  }

  /** The count gauges after these roles; a role whose count cannot be read keeps its old gauge. */
  function Counted(got: Reads, version: string, roles: seq<string>, before: PairSeries): PairSeries {
    if roles == [] then before else
      var role := roles[|roles| - 1];
      var gauges := Counted(got, version, roles[..|roles| - 1], before);
      if got.count(role).Ok? then gauges[(version, role) := got.count(role).value] else gauges
  }

  /** The loop body of Run. */
  method RunRole(m: Registry, got: Reads, version: string, role: string) returns (v: Verdict)
    modifies m`roleMembersCount
    ensures v == VerdictOn(got, role)
    ensures m.roleMembersCount == Counted(got, version, [role], old(m.roleMembersCount))
  {
    var count := got.count(role);
    if count.Err? {
      return Said([], [CountUnread(role, count.error)]);
    }
    m.roleMembersCount := m.roleMembersCount[(version, role) := count.value];
    if count.value == 0 {
      return Said([Members(role, 0)], []);
    }
    var end := count.value;
    if end > CAP {
      end := CAP;
    }
    var members := got.members(role, 0, end);
    if members == Ok(Panicked) {
      return Crashed;
    }
    if MembersError(members).Some? {
      return Said([], [MembersUnread(role, MembersError(members).value)]);
    }
    var findings := [];
    if IsPrivileged(role) && count.value > 5 {
      findings := [TooManyHolders(role, count.value)];
    }
    v := Said([Members(role, count.value)], findings);
  }

  lemma {:induction false} CrashSpreads(got: Reads, roles: seq<string>, i: nat)
    requires i < |roles| && VerdictOn(got, roles[i]) == Crashed
    ensures VerdictOnAll(got, roles) == Crashed
  {
    if i < |roles| - 1 {
      CrashSpreads(got, roles[..|roles| - 1], i);
    }
  }

  /** Role i is the first whose members make the decoder panic. */
  ghost predicate CrashesAt(got: Reads, roles: seq<string>, i: nat) {
    i < |roles| && VerdictOn(got, roles[i]).Crashed? && VerdictOnAll(got, roles[..i]).Said?
  }

  /** After a panic, the counts read up to and including that role stand, and nothing else happens. */
  method Run(m: Registry, got: Reads, version: string, roles: seq<string>, now: int) returns (v: Verdict)
    modifies m`roleMembersCount, m`lastRun
    ensures v == VerdictOnAll(got, roles)
    ensures v.Said? ==>
      && m.roleMembersCount == Counted(got, version, roles, old(m.roleMembersCount))
      && m.lastRun == old(m.lastRun)["roles_" + version := now]
    ensures v.Crashed? ==>
      && m.lastRun == old(m.lastRun)
      && exists i :: CrashesAt(got, roles, i)
           && m.roleMembersCount == Counted(got, version, roles[..i + 1], old(m.roleMembersCount))
  {
    v := Said([], []);
    for i := 0 to |roles|
      invariant v == VerdictOnAll(got, roles[..i]) && v.Said?
      invariant m.roleMembersCount == Counted(got, version, roles[..i], old(m.roleMembersCount))
      invariant m.lastRun == old(m.lastRun)
    {
      var one := RunRole(m, got, version, roles[i]);
      assert roles[..i + 1][..i] == roles[..i];
      if one.Crashed? {
        CrashSpreads(got, roles, i);
        assert CrashesAt(got, roles, i);
        return Crashed;
      }
      v := Said(v.lines + one.lines, v.findings + one.findings);
    }
    assert roles[..|roles|] == roles;
    m.lastRun := m.lastRun["roles_" + version := now];
  }

  // ---------- what is reported, spelled out ----------

  /** What the task asks for: the first fifty members at most. */
  function Asked(got: Reads, role: string, count: uint64): Result<Decoded> {
    got.members(role, 0, if count < 50 then count else 50)
  }

  /** A role is listed with its count once that is read, and its members too if it has any. */
  ghost predicate Listed(got: Reads, role: string, count: nat) {
    && got.count(role) == Ok(count)
    && (count > 0 ==> Asked(got, role, count).Ok? && Asked(got, role, count).value.Addresses?)
  }

  /** A role's members were asked for and could not be had. */
  ghost predicate MembersFail(got: Reads, role: string, e: string) {
    && got.count(role).Ok? && got.count(role).value > 0
    && match Asked(got, role, got.count(role).value)
       case Err(error) => error == e
       case Ok(ShortPayload) => e == "decodeAddressArray: short payload"
       case Ok(BodyTooShort(_)) => e == "decodeAddressArray: body too short"
       case Ok(_) => false
  }

  /** The reason for a finding. */
  ghost predicate Warranted(got: Reads, f: Finding) {
    match f
    case CountUnread(role, e) => got.count(role) == Err(e)
    case MembersUnread(role, e) => MembersFail(got, role, e)
    case TooManyHolders(role, count) =>
      && Listed(got, role, count) && count > 5
      && role in ["CONFIG_KEEPER", "TIMELOCK_ADMIN", "TIMELOCK_MULTISIG", "GOV_TOKEN_CONTROLLER"]
  }

  lemma OneVerdict(got: Reads, role: string, l: Line, f: Finding)
    requires VerdictOn(got, role).Said?
    ensures l in VerdictOn(got, role).lines <==> l.role == role && Listed(got, role, l.count)
    ensures f in VerdictOn(got, role).findings <==> f.role == role && Warranted(got, f)
    ensures |VerdictOn(got, role).lines| + CountIf(VerdictOn(got, role).findings, IsUnread) == 1
  {
    var v := VerdictOn(got, role);
    assert |v.findings| <= 1 && (v.findings == [] || v.findings[..0] == []);
  }

  predicate IsUnread(f: Finding) {
    !f.TooManyHolders?
  }

  /**
    What a run that ends says: a line for every role whose count, and members if any, were read; a finding for every
    failed read and for every privileged role with more than five holders; each role has a line or an unread finding.
   */
  lemma {:induction false} RolesReported(got: Reads, roles: seq<string>, l: Line, f: Finding)
    requires VerdictOnAll(got, roles).Said?
    ensures var v := VerdictOnAll(got, roles);
      && (l in v.lines <==> l.role in roles && Listed(got, l.role, l.count))
      && (f in v.findings <==> f.role in roles && Warranted(got, f))
      && |v.lines| + CountIf(v.findings, IsUnread) == |roles|
  {
    if roles != [] {
      var init, last := roles[..|roles| - 1], roles[|roles| - 1];
      RolesReported(got, init, l, f);
      OneVerdict(got, last, l, f);
      OneRoleMore(VerdictOnAll(got, init), VerdictOn(got, last), roles, l, f, Listed(got, l.role, l.count),
                  Warranted(got, f));
    }
  }

  lemma OneRoleMore(a: Verdict, b: Verdict, roles: seq<string>, l: Line, f: Finding, listed: bool, warranted: bool)
    requires a.Said? && b.Said? && roles != []
    requires l in a.lines <==> l.role in roles[..|roles| - 1] && listed
    requires f in a.findings <==> f.role in roles[..|roles| - 1] && warranted
    requires l in b.lines <==> l.role == roles[|roles| - 1] && listed
    requires f in b.findings <==> f.role == roles[|roles| - 1] && warranted
    requires |a.lines| + CountIf(a.findings, IsUnread) == |roles| - 1
    requires |b.lines| + CountIf(b.findings, IsUnread) == 1
    ensures l in a.lines + b.lines <==> l.role in roles && listed
    ensures f in a.findings + b.findings <==> f.role in roles && warranted
    ensures |a.lines + b.lines| + CountIf(a.findings + b.findings, IsUnread) == |roles|
  {
    CountIfConcat(a.findings, b.findings, IsUnread);
    assert roles == roles[..|roles| - 1] + [roles[|roles| - 1]];
  }

  /** The run panics exactly if the members of some role are asked for and make the decoder panic. */
  lemma {:induction false} CrashMeans(got: Reads, roles: seq<string>)
    ensures VerdictOnAll(got, roles).Crashed? <==>
      exists role :: role in roles && got.count(role).Ok? && got.count(role).value > 0
        && Asked(got, role, got.count(role).value) == Ok(Panicked)
  {
    if roles != [] {
      var init, last := roles[..|roles| - 1], roles[|roles| - 1];
      CrashMeans(got, init);
      assert roles == init + [last] && last in roles;
    }
  }

  /** The count gauges of a run: every role whose count was read has it, and every other gauge is as before. */
  lemma {:induction false} CountsShown(got: Reads, version: string, roles: seq<string>, before: PairSeries,
                                       v: string, role: string)
    ensures var after := Counted(got, version, roles, before);
      if v == version && role in roles && got.count(role).Ok?
      then (v, role) in after && after[(v, role)] == got.count(role).value
      else
        && ((v, role) in after <==> (v, role) in before)
        && ((v, role) in before ==> after[(v, role)] == before[(v, role)])
  {
    if roles != [] {
      var init, last := roles[..|roles| - 1], roles[|roles| - 1];
      CountsShown(got, version, init, before, v, role);
      assert roles == init + [last];
    }
  }

  // ---------- over the wire ----------

  /** The reads of a client, given how a role name is hashed. */
  function RoleReads(c: Chain, roleStore: Address, hash: string -> Word): Reads {
    Reads(role => CountAt(c, roleStore, c.sel.getRoleMemberCount, hash(role)),
          (role: string, start: uint64, end: uint64) => MembersAt(c, roleStore, hash(role), start, end))
  }

  function RoleHash(H: HashFn): string -> Word {
    role => RootHash(H, Ascii(role))
  }

  /** The reads see these holders. */
  ghost predicate Sees(got: Reads, role: string, holders: seq<Address>) {
    && |holders| < TWO_64
    && got.count(role) == Ok(|holders|)
    && got.members(role, 0, Capped(|holders|)) == Ok(Addresses(holders[..Capped(|holders|)]))
  }

  /**
    Count, cap and fetch compose: against a node that serves the RoleStore the member read asks for a range that exists
    and gets the first min(count, 50) holders.
   */
  lemma RolesOverTheWire(c: Chain, world: World, rs: Address, hash: string -> Word, role: string)
    requires Serves(c, world) && SelectorsDiffer(c.sel) && rs in world && world[rs].RoleStore?
    requires |Stored(world[rs].members, hash(role), [])| < TWO_64
    ensures Sees(RoleReads(c, rs, hash), role, Stored(world[rs].members, hash(role), []))
  {
    CountSeen(c, world, rs, hash(role));
    FirstMembersSeen(c, world, rs, hash(role), Capped(|Stored(world[rs].members, hash(role), [])|));
  }

  lemma CountSeen(c: Chain, world: World, rs: Address, key: Word)
    requires Serves(c, world) && rs in world && world[rs].RoleStore? && |Stored(world[rs].members, key, [])| < TWO_64
    ensures CountAt(c, rs, c.sel.getRoleMemberCount, key) == Ok(|Stored(world[rs].members, key, [])|)
  {
    MemberCountAgrees(c, world, rs, key);
    Fits(|Stored(world[rs].members, key, [])|);
  }

  lemma Fits(n: nat)
    requires n < TWO_64
    ensures n % TWO_64 == n
  {
  }

  lemma FirstMembersSeen(c: Chain, world: World, rs: Address, key: Word, end: uint64)
    requires Serves(c, world) && SelectorsDiffer(c.sel) && rs in world && world[rs].RoleStore?
    requires end <= CAP && end <= |Stored(world[rs].members, key, [])|
    ensures MembersAt(c, rs, key, 0, end) == Ok(Addresses(Stored(world[rs].members, key, [])[..end]))
  {
    MembersAgree(c, world, rs, key, 0, end);
  }

  /** What a role with these holders is reported as. */
  function Flagged(role: string, count: nat): seq<Finding> {
    if IsPrivileged(role) && count > 5 then [TooManyHolders(role, count)] else []
  }

  function FlaggedAll(roles: seq<string>, holders: string -> seq<Address>): seq<Finding> {
    if roles == [] then [] else
      FlaggedAll(roles[..|roles| - 1], holders) + Flagged(roles[|roles| - 1], |holders(roles[|roles| - 1])|)
  }

  lemma VerdictOnSeen(got: Reads, role: string, holders: seq<Address>)
    requires Sees(got, role, holders)
    ensures VerdictOn(got, role) == Said([Members(role, |holders|)], Flagged(role, |holders|))
  {
  }

  /** When all reads see the holders, every role gets its line with its full count, and nothing is reported unread. */
  lemma {:induction false} VerdictOnAllSeen(got: Reads, roles: seq<string>, holders: string -> seq<Address>)
    requires forall role :: role in roles ==> Sees(got, role, holders(role))
    ensures VerdictOnAll(got, roles)
        == Said(seq(|roles|, i requires 0 <= i < |roles| => Members(roles[i], |holders(roles[i])|)),
                FlaggedAll(roles, holders))
  {
    if roles != [] {
      var init, last := roles[..|roles| - 1], roles[|roles| - 1];
      VerdictOnAllSeen(got, init, holders);
      assert last in roles;
      VerdictOnSeen(got, last, holders(last));
    }
  }

  /** The holders that the RoleStore keeps under each role name's hash. */
  function StoredHolders(H: HashFn, d: Contract): string -> seq<Address>
    requires d.RoleStore?
  {
    role => Stored(d.members, RoleHash(H)(role), [])
  }

  /**
    Against a node that serves the RoleStore the task reports, for every role in order, the number of holders stored
    under the hash of its name, and flags exactly the oversized privileged ones.
   */
  lemma RunOverTheWire(H: HashFn, c: Chain, world: World, rs: Address, roles: seq<string>)
    requires Serves(c, world) && SelectorsDiffer(c.sel) && rs in world && world[rs].RoleStore?
    requires forall role :: role in roles ==> |StoredHolders(H, world[rs])(role)| < TWO_64
    ensures var holders := StoredHolders(H, world[rs]);
      VerdictOnAll(RoleReads(c, rs, RoleHash(H)), roles)
        == Said(seq(|roles|, i requires 0 <= i < |roles| => Members(roles[i], |holders(roles[i])|)),
                FlaggedAll(roles, holders))
  {
    var holders := StoredHolders(H, world[rs]);
    forall role | role in roles
      ensures Sees(RoleReads(c, rs, RoleHash(H)), role, holders(role))
    {
      RolesOverTheWire(c, world, rs, RoleHash(H), role);
    }
    VerdictOnAllSeen(RoleReads(c, rs, RoleHash(H)), roles, holders);
  }
}
