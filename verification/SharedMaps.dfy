/**
 SetSecurityGroups as a whole: groups on the same networks share a port map, so some
 of them the kernel refuses, and the ports of one leak into another.
 */
module SharedMaps {
  import opened Common
  import opened Bits
  import opened Nft
  import opened RuleStore
  import opened Groups
  import opened GroupVerdicts
  import opened Router
  import opened HookVerdicts

  // ----- which groups the kernel refuses

  /** Two groups with different verdicts for a port, in a map they share. */
  ghost predicate Conflict(a: SecurityGroup, b: SecurityGroup, iif: Name) {
    && !Mixed(a) && !Mixed(b) && Signature(a, iif) == Signature(b, iif) && VerdictOf(a) != VerdictOf(b)
    && exists proto, port :: PortListed(a.ports, proto, port) && PortListed(b.ports, proto, port)
  }

  /** A group in conflict with an earlier one, or one that would take over the loopback interface. */
  ghost predicate Clash(sgs: seq<SecurityGroup>, k: nat, iif: Name)
    requires k < |sgs|
  {
    (Jumps(sgs[k], iif) && iif == LO) || exists i | 0 <= i < k :: Conflict(sgs[i], sgs[k], iif)
  }

  ghost predicate Compatible(sgs: seq<SecurityGroup>, iif: Name) {
    forall k | 0 <= k < |sgs| :: !Clash(sgs, k, iif)
  }

  /** The number of groups before the first clash. */
  ghost function TakenFrom(sgs: seq<SecurityGroup>, k: nat, iif: Name): (n: nat)
    requires k <= |sgs|
    ensures k <= n <= |sgs| && (forall i | k <= i < n :: !Clash(sgs, i, iif)) && (n < |sgs| ==> Clash(sgs, n, iif))
    decreases |sgs| - k
  {
    if k == |sgs| || Clash(sgs, k, iif) then k else TakenFrom(sgs, k + 1, iif)
  }

  /** The groups that are applied. */
  ghost function Done(sgs: seq<SecurityGroup>, iif: Name): seq<SecurityGroup> {
    sgs[..TakenFrom(sgs, 0, iif)]
  }

  lemma {:induction false} SameFamilies(a: SecurityGroup, b: SecurityGroup, iif: Name, fam: Family)
    requires !Mixed(a) && !Mixed(b) && Signature(a, iif) == Signature(b, iif)
    ensures Applies(a, fam) == Applies(b, fam)
  {
    var x, y := Signature(a, iif), Signature(b, iif);
    var n := if iif != [] then 1 else 0;
    assert x[n..] == y[n..];
    assert |x| > n ==> x[n] == y[n];
  }

  /** A key that adding ports has changed is that of a port listed. */
  lemma {:induction false} ChangedRange(m: map<Bits, Verdict>, proto: nat, from: int, last: int, v: Verdict, key: Bits)
    returns (port: int)
    requires var m' := AddRange(m, proto, from, last, v); key in m && key in m' && m'[key] != m[key]
    ensures from <= port <= last && key == PortKey(proto, port)
    decreases last - from
  {
    var m1 := m[PortKey(proto, from) := v];
    if m1[key] != m[key] {
      port := from;
    } else {
      port := ChangedRange(m1, proto, from + 1, last, v, key);
    }
  }

  lemma {:induction false} ChangedPort(m: map<Bits, Verdict>, ports: seq<PortGroup>, v: Verdict, key: Bits)
    returns (proto: nat, port: int)
    requires var m' := AddPorts(m, ports, v); key in m && key in m' && m'[key] != m[key]
    ensures PortListed(ports, proto, port) && key == PortKey(proto, port)
    decreases |ports|
  {
    var pg := ports[0];
    var n := ProtoNumber(pg.proto);
    var m1 := if pg.proto == ICMP || n.None? then m else AddRange(m, n.value, pg.fromPort, pg.toPort, v);
    KeysKept(m, pg, v, key);
    if m1[key] != m[key] {
      port := ChangedRange(m, n.value, pg.fromPort, pg.toPort, v, key);
      proto := n.value;
    } else {
      proto, port := ChangedPort(m1, ports[1..], v, key);
    }
    ListedHead(ports, proto, port);
  }

  lemma {:induction false} KeysKept(m: map<Bits, Verdict>, pg: PortGroup, v: Verdict, key: Bits)
    requires key in m
    ensures ProtoNumber(pg.proto).Some? ==> key in AddRange(m, ProtoNumber(pg.proto).value, pg.fromPort, pg.toPort, v)
  {
    if ProtoNumber(pg.proto).Some? {
      RangeKeeps(m, ProtoNumber(pg.proto).value, pg.fromPort, pg.toPort, v, key);
    }
  }

  lemma {:induction false} RangeKeeps(m: map<Bits, Verdict>, proto: nat, from: int, last: int, v: Verdict, key: Bits)
    requires key in m
    ensures key in AddRange(m, proto, from, last, v)
    decreases last - from
  {
    if from <= last {
      RangeKeeps(m[PortKey(proto, from) := v], proto, from + 1, last, v, key);
    }
  }

  lemma {:induction false} ListedBounds(sg: SecurityGroup, proto: nat, port: int)
    requires ValidGroup(sg) && PortListed(sg.ports, proto, port)
    ensures proto < 256 && 0 <= port < 65536 && NeedsMap(sg.ports)
  {
  }

  /** A group replaces an entry of a map exactly if the map has another verdict for a port it lists. */
  lemma {:induction false} ReplacesIff(m: map<Bits, Verdict>, sg: SecurityGroup)
    requires ValidGroup(sg)
    ensures Replaces(m, AddPorts(m, sg.ports, VerdictOf(sg)))
       <==> exists proto, port :: PortListed(sg.ports, proto, port) && PortKey(proto, port) in m
                                  && m[PortKey(proto, port)] != VerdictOf(sg)
  {
    var m' := AddPorts(m, sg.ports, VerdictOf(sg));
    if Replaces(m, m') {
      var key :| key in m && key in m' && m'[key] != m[key];
      var proto, port := ChangedPort(m, sg.ports, VerdictOf(sg), key);
      ListedBounds(sg, proto, port);
      PortEntries(m, sg.ports, VerdictOf(sg), proto, port);
    }
    if proto, port :| PortListed(sg.ports, proto, port) && PortKey(proto, port) in m
                      && m[PortKey(proto, port)] != VerdictOf(sg) {
      ListedBounds(sg, proto, port);
      PortEntries(m, sg.ports, VerdictOf(sg), proto, port);
    }
  }

  /** What the map has for a port is the verdict of some group that lists it. */
  lemma {:induction false} SomeLister(sgs: seq<SecurityGroup>, iif: Name, fam: Family, name: SetName, proto: nat,
                                      port: int)
    returns (i: nat)
    requires LastLister(sgs, iif, fam, name, proto, port).Some?
    ensures i < |sgs| && UsesMap(sgs[i], iif, fam, name) && PortListed(sgs[i].ports, proto, port)
    ensures LastLister(sgs, iif, fam, name, proto, port) == Some(VerdictOf(sgs[i]))
    decreases |sgs|
  {
    if LastLister(sgs[1..], iif, fam, name, proto, port).Some? {
      var j := SomeLister(sgs[1..], iif, fam, name, proto, port);
      i := j + 1;
    } else {
      i := 0;
    }
  }

  lemma {:induction false} ListerIsSome(sgs: seq<SecurityGroup>, iif: Name, fam: Family, name: SetName, proto: nat,
                                        port: int, i: nat)
    requires i < |sgs| && UsesMap(sgs[i], iif, fam, name) && PortListed(sgs[i].ports, proto, port)
    ensures LastLister(sgs, iif, fam, name, proto, port).Some?
    decreases |sgs|
  {
    if i > 0 {
      ListerIsSome(sgs[1..], iif, fam, name, proto, port, i - 1);
    }
  }

  /** Among compatible groups all that list a port agree on it. */
  lemma {:induction false} ListersAgree(sgs: seq<SecurityGroup>, iif: Name, fam: Family, name: SetName, proto: nat,
                                        port: int, i: nat)
    requires Compatible(sgs, iif)
    requires i < |sgs| && UsesMap(sgs[i], iif, fam, name) && PortListed(sgs[i].ports, proto, port)
    ensures LastLister(sgs, iif, fam, name, proto, port) == Some(VerdictOf(sgs[i]))
  {
    ListerIsSome(sgs, iif, fam, name, proto, port, i);
    var j := SomeLister(sgs, iif, fam, name, proto, port);
    assert !Clash(sgs, i, iif) && !Clash(sgs, j, iif);
  }

  /** After compatible groups, another one is refused for its ports exactly if it is in conflict with one of them. */
  lemma {:induction false} PortsRefusedIff(done: seq<SecurityGroup>, sg: SecurityGroup, iif: Name, fam: Family)
    requires |iif| < 16 && Compatible(done, iif) && (forall i | 0 <= i < |done| :: ValidGroup(done[i]))
    requires ValidGroup(sg) && !Mixed(sg)
    ensures PortsRefused(ApplyAll(NewRouter(), done, iif), sg, iif, fam)
       <==> Applies(sg, fam) && exists i | 0 <= i < |done| :: Conflict(done[i], sg, iif)
  {
    var name := PortMap(Signature(sg, iif));
    var m := SharedFrom(map[], done, iif, fam, name);
    MapBuilt(NewRouter(), done, iif, fam, name);
    assert Vmap(ApplyAll(NewRouter(), done, iif), fam, name) == m;
    ReplacesIff(m, sg);
    if Applies(sg, fam) && Replaces(m, AddPorts(m, sg.ports, VerdictOf(sg))) {
      ReplacedConflicts(done, sg, iif, fam, m);
    }
    if i :| 0 <= i < |done| && Conflict(done[i], sg, iif) && Applies(sg, fam) {
      ConflictReplaces(done, i, sg, iif, fam, m);
    }
  }

  lemma {:induction false} ReplacedConflicts(done: seq<SecurityGroup>, sg: SecurityGroup, iif: Name, fam: Family,
                                             m: map<Bits, Verdict>)
    requires (forall i | 0 <= i < |done| :: ValidGroup(done[i])) && ValidGroup(sg) && !Mixed(sg)
    requires m == SharedFrom(map[], done, iif, fam, PortMap(Signature(sg, iif)))
    requires Replaces(m, AddPorts(m, sg.ports, VerdictOf(sg)))
    ensures exists i | 0 <= i < |done| :: Conflict(done[i], sg, iif)
  {
    var name := PortMap(Signature(sg, iif));
    ReplacesIff(m, sg);
    var proto, port :| PortListed(sg.ports, proto, port) && PortKey(proto, port) in m
                       && m[PortKey(proto, port)] != VerdictOf(sg);
    ListedBounds(sg, proto, port);
    SharedEntry(map[], done, iif, fam, name, proto, port);
    var i := SomeLister(done, iif, fam, name, proto, port);
    assert Conflict(done[i], sg, iif);
  }

  lemma {:induction false} ConflictReplaces(done: seq<SecurityGroup>, i: nat, sg: SecurityGroup, iif: Name, fam: Family,
                                            m: map<Bits, Verdict>)
    requires Compatible(done, iif) && (forall i | 0 <= i < |done| :: ValidGroup(done[i])) && ValidGroup(sg)
    requires i < |done| && Conflict(done[i], sg, iif) && Applies(sg, fam)
    requires m == SharedFrom(map[], done, iif, fam, PortMap(Signature(sg, iif)))
    ensures NeedsMap(sg.ports) && Replaces(m, AddPorts(m, sg.ports, VerdictOf(sg)))
  {
    var name := PortMap(Signature(sg, iif));
    var proto, port :| PortListed(done[i].ports, proto, port) && PortListed(sg.ports, proto, port);
    ListedBounds(sg, proto, port);
    ListedBounds(done[i], proto, port);
    SameFamilies(done[i], sg, iif, fam);
    ListersAgree(done, iif, fam, name, proto, port, i);
    SharedEntry(map[], done, iif, fam, name, proto, port);
    ReplacesIff(m, sg);
  }

  /** A jump is refused exactly for the loopback interface. */
  lemma {:induction false} JumpRefusedIff(done: seq<SecurityGroup>, iif: Name)
    requires 0 < |iif| < 16 && Compatible(done, iif)
    ensures JumpRefused(ApplyAll(NewRouter(), done, iif), iif) <==> iif == LO
  {
    var r := ApplyAll(NewRouter(), done, iif);
    forall fam: Family
      ensures Replaces(Vmap(r, fam, InboundIfNames), Vmap(WithJump(r, iif), fam, InboundIfNames)) <==> iif == LO
    {
      assert Table(NewRouter(), fam) == BaseSets();
      IfMapBuilt(NewRouter(), done, iif, fam);
      JumpSet(r, iif, fam, InboundIfNames);
      JumpReplaces(done, iif);
    }
  }

  lemma {:induction false} JumpReplaces(done: seq<SecurityGroup>, iif: Name)
    requires 0 < |iif| < 16 && Compatible(done, iif)
    ensures var m := IfMap(done, iif); Replaces(m, m[Padded(iif, 16) := Jump(Inbound(iif))]) <==> iif == LO
  {
    PaddedIff(iif, LO);
    var m := IfMap(done, iif);
    if iif == LO {
      NoLoopbackJump(done);
      assert Padded(iif, 16) in m;
    }
  }

  lemma {:induction false} NoLoopbackJump(sgs: seq<SecurityGroup>)
    requires Compatible(sgs, LO)
    ensures !SomeJumps(sgs, LO)
  {
    forall i | 0 <= i < |sgs| ensures !Jumps(sgs[i], LO) {
      assert !Clash(sgs, i, LO);
    }
  }

  /** On a new router, after compatible groups, the next group is refused exactly if it clashes. */
  lemma {:induction false} RefusedIff(sgs: seq<SecurityGroup>, k: nat, iif: Name)
    requires |iif| < 16 && k < |sgs| && (forall i | 0 <= i < |sgs| :: ValidGroup(sgs[i]))
    requires forall i | 0 <= i < k :: !Clash(sgs, i, iif)
    ensures Refused(ApplyAll(NewRouter(), sgs[..k], iif), sgs[k], iif) <==> Clash(sgs, k, iif)
  {
    PrefixCompatible(sgs, k, iif);
    NextRefusedIff(sgs[..k], sgs[k], iif);
    if i :| 0 <= i < k && Conflict(sgs[i], sgs[k], iif) {
      assert Conflict(sgs[..k][i], sgs[k], iif);
    }
  }

  lemma {:induction false} NextRefusedIff(done: seq<SecurityGroup>, sg: SecurityGroup, iif: Name)
    requires |iif| < 16 && Compatible(done, iif) && (forall i | 0 <= i < |done| :: ValidGroup(done[i]))
    requires ValidGroup(sg)
    ensures Refused(ApplyAll(NewRouter(), done, iif), sg, iif)
       <==> (Jumps(sg, iif) && iif == LO) || exists i | 0 <= i < |done| :: Conflict(done[i], sg, iif)
  {
    if !Mixed(sg) {
      PortsRefusedIff(done, sg, iif, V4);
      PortsRefusedIff(done, sg, iif, V6);
      assert Applies(sg, V4) || Applies(sg, V6);
      if iif != [] {
        JumpRefusedIff(done, iif);
      }
    }
  }

  lemma {:induction false} PrefixCompatible(sgs: seq<SecurityGroup>, k: nat, iif: Name)
    requires k <= |sgs| && forall i | 0 <= i < k :: !Clash(sgs, i, iif)
    ensures Compatible(sgs[..k], iif)
  {
    forall i | 0 <= i < k ensures !Clash(sgs[..k], i, iif) {
      assert !Clash(sgs, i, iif);
    }
  }

  lemma {:induction false} ApplyOneMore(r: Router, sgs: seq<SecurityGroup>, k: nat, iif: Name)
    requires |iif| < 16 && k < |sgs|
    ensures ApplyAll(r, sgs[..k + 1], iif) == ApplyGroup(ApplyAll(r, sgs[..k], iif), sgs[k], iif)
    decreases k
  {
    if k == 0 {
      assert sgs[..1][1..] == [];
    } else {
      ApplyOneMore(ApplyGroup(r, sgs[0], iif), sgs[1..], k - 1, iif);
      assert sgs[..k + 1][1..] == sgs[1..][..k] && sgs[..k][1..] == sgs[1..][..k - 1];
    }
  }

  lemma {:induction false} ConfiguredFrom(sgs: seq<SecurityGroup>, k: nat, iif: Name)
    requires |iif| < 16 && k <= |sgs| && (forall i | 0 <= i < |sgs| :: ValidGroup(sgs[i]))
    requires forall i | 0 <= i < k :: !Clash(sgs, i, iif)
    ensures var n := TakenFrom(sgs, k, iif);
            SetSecurityGroups(ApplyAll(NewRouter(), sgs[..k], iif), sgs[k..], iif)
            == Configured(ApplyAll(NewRouter(), sgs[..n], iif), n == |sgs|)
    decreases |sgs| - k
  {
    if k < |sgs| {
      RefusedIff(sgs, k, iif);
      assert sgs[k..][0] == sgs[k] && sgs[k..][1..] == sgs[k + 1..];
      if !Clash(sgs, k, iif) {
        ApplyOneMore(NewRouter(), sgs, k, iif);
        ConfiguredFrom(sgs, k + 1, iif);
      }
    }
  }

  /** On a new router the groups before the first clash are applied, and a clash is the only error. */
  lemma {:induction false} RefusedFromClash(sgs: seq<SecurityGroup>, iif: Name)
    requires |iif| < 16 && forall i | 0 <= i < |sgs| :: ValidGroup(sgs[i])
    ensures var c := SetSecurityGroups(NewRouter(), sgs, iif);
            && c.router == ApplyAll(NewRouter(), Done(sgs, iif), iif) && Compatible(Done(sgs, iif), iif)
            && (c.ok <==> Compatible(sgs, iif)) && (c.ok ==> Done(sgs, iif) == sgs)
  {
    ConfiguredFrom(sgs, 0, iif);
    assert sgs[..0] == [] && sgs[0..] == sgs;
    PrefixCompatible(sgs, TakenFrom(sgs, 0, iif), iif);
  }

  // ----- the verdicts

  /**
   Forwarded packets, for any groups: of those applied the first with a destination
   network that says something, and only then the connection state.
   */
  lemma {:induction false} ForwardDecides(sgs: seq<SecurityGroup>, iif: Name, p: Packet)
    requires Given(sgs, iif, p)
    ensures var done := Done(sgs, iif);
            ForwardVerdict(SetSecurityGroups(NewRouter(), sgs, iif).router, p)
            == First(FirstSaying(done, done, iif, p, true), CtVerdict(p))
  {
    RefusedFromClash(sgs, iif);
    AllForward(Done(sgs, iif), iif, p);
  }

  /**
   Packets for the router itself, for any groups: the connection state, then
   acceptance of loopback, then of the groups applied the first without a
   destination network that says something.
   */
  lemma {:induction false} InputDecides(sgs: seq<SecurityGroup>, iif: Name, p: Packet)
    requires Given(sgs, iif, p)
    ensures var done := Done(sgs, iif);
            InputVerdict(SetSecurityGroups(NewRouter(), sgs, iif).router, p)
            == First(CtVerdict(p), if p.iifname == LO then Some(Accept) else FirstSaying(done, done, iif, p, false))
  {
    RefusedFromClash(sgs, iif);
    var done := Done(sgs, iif);
    AllInput(done, iif, p);
    if iif == LO {
      NoLoopbackJump(done);
    }
  }

  // ----- first match

  /** The verdict of the first group of a hook that matches. */
  function FirstMatching(sgs: seq<SecurityGroup>, iif: Name, p: Packet, forward: bool): Option<Verdict>
    requires ValidPacket(p)
    decreases |sgs|
  {
    if sgs == [] then None
    else if !Mixed(sgs[0]) && sgs[0].dst.Prefix? == forward && Matches(sgs[0], iif, p) then Some(VerdictOf(sgs[0]))
    else FirstMatching(sgs[1..], iif, p, forward)
  }

  /**
   A port that only other groups list leaks into this one: its conditions but the
   port hold, it has a port map, and its ICMP rule does not come first.
   */
  predicate Leaks(all: seq<SecurityGroup>, sg: SecurityGroup, iif: Name, p: Packet)
    requires ValidPacket(p)
  {
    && Applies(sg, p.fam) && ConditionsHold(sg, iif, p) && NeedsMap(sg.ports) && !Lists(sg, p)
    && LastListing(all, iif, p, PortMap(Signature(sg, iif))).Some?
    && !(p.l4proto == IPPROTO_ICMP && sg.ports[0].proto == ICMP)
  }

  /** The verdict that leaks into a group of the hook before any matches. */
  function FirstLeak(all: seq<SecurityGroup>, sgs: seq<SecurityGroup>, iif: Name, p: Packet, forward: bool)
    : Option<Verdict>
    requires ValidPacket(p)
    decreases |sgs|
  {
    if sgs == [] then None
    else if Heard(sgs[0], iif, p, forward) && Leaks(all, sgs[0], iif, p) then
      LastListing(all, iif, p, PortMap(Signature(sgs[0], iif)))
    else if Heard(sgs[0], iif, p, forward) && Matches(sgs[0], iif, p) then None
    else FirstLeak(all, sgs[1..], iif, p, forward)
  }

  lemma {:induction false} SaysOwn(all: seq<SecurityGroup>, k: nat, iif: Name, p: Packet)
    requires ValidPacket(p) && Compatible(all, iif) && k < |all| && ValidGroup(all[k]) && !Mixed(all[k])
    ensures var mapped := LastListing(all, iif, p, PortMap(Signature(all[k], iif)));
            GroupSays(all[k], iif, p, mapped)
            == if Leaks(all, all[k], iif, p) then mapped
               else if RulesMatch(all[k], iif, p) then Some(VerdictOf(all[k])) else None
  {
    var sg := all[k];
    OwnSays(sg, iif, p);
    if Lists(sg, p) && Applies(sg, p.fam) {
      ListsNeedsMap(sg, p);
      ListersAgree(all, iif, p.fam, PortMap(Signature(sg, iif)), Value(HeaderProto(p)), DestPort(p), k);
    }
  }

  lemma {:induction false} LeakOrMatch(all: seq<SecurityGroup>, k: nat, iif: Name, p: Packet, forward: bool)
    requires ValidPacket(p) && Compatible(all, iif) && k <= |all| && forall i | 0 <= i < |all| :: ValidGroup(all[i])
    ensures FirstSaying(all, all[k..], iif, p, forward)
         == First(FirstLeak(all, all[k..], iif, p, forward), FirstMatching(all[k..], iif, p, forward))
    decreases |all| - k
  {
    if k < |all| {
      assert all[k..][1..] == all[k + 1..] && all[k..][0] == all[k];
      LeakOrMatch(all, k + 1, iif, p, forward);
      if !Mixed(all[k]) {
        SaysOwn(all, k, iif, p);
      }
    }
  }

  /**
   A forwarded packet gets the verdict of the first matching group with a
   destination network, and otherwise that of its connection state, exactly if no
   port leaks to it before a match, or one does with that very verdict.
   */
  lemma {:induction false} ForwardFirstMatch(sgs: seq<SecurityGroup>, iif: Name, p: Packet)
    requires Given(sgs, iif, p)
    ensures var done := Done(sgs, iif);
            var leak := FirstLeak(done, done, iif, p, true);
            var matched := First(FirstMatching(done, iif, p, true), CtVerdict(p));
            var verdict := ForwardVerdict(SetSecurityGroups(NewRouter(), sgs, iif).router, p);
            verdict == First(leak, matched) && (verdict == matched <==> leak.None? || leak == matched)
  {
    ForwardDecides(sgs, iif, p);
    RefusedFromClash(sgs, iif);
    LeakOrMatch(Done(sgs, iif), 0, iif, p, true);
    assert Done(sgs, iif)[0..] == Done(sgs, iif);
  }

  /** The same for packets to the router itself, groups without a destination network, and loopback. */
  lemma {:induction false} InputFirstMatch(sgs: seq<SecurityGroup>, iif: Name, p: Packet)
    requires Given(sgs, iif, p)
    ensures var done := Done(sgs, iif);
            var leak := FirstLeak(done, done, iif, p, false);
            var matched := FirstMatching(done, iif, p, false);
            var before := First(CtVerdict(p), if p.iifname == LO then Some(Accept) else None);
            var verdict := InputVerdict(SetSecurityGroups(NewRouter(), sgs, iif).router, p);
            && verdict == First(before, First(leak, matched))
            && (verdict == First(before, matched) <==> before.Some? || leak.None? || leak == matched)
  {
    InputDecides(sgs, iif, p);
    RefusedFromClash(sgs, iif);
    LeakOrMatch(Done(sgs, iif), 0, iif, p, false);
    assert Done(sgs, iif)[0..] == Done(sgs, iif);
  }

  /** No two groups that are applied share a port map. */
  ghost predicate DistinctMaps(sgs: seq<SecurityGroup>, iif: Name) {
    forall i, j | 0 <= i < j < |sgs| && !Mixed(sgs[i]) && !Mixed(sgs[j])
                  && NeedsMap(sgs[i].ports) && NeedsMap(sgs[j].ports) ::
      Signature(sgs[i], iif) != Signature(sgs[j], iif)
  }

  /** Where no map is shared nothing leaks. */
  lemma {:induction false} DistinctNeverLeak(all: seq<SecurityGroup>, k: nat, iif: Name, p: Packet, forward: bool)
    requires ValidPacket(p) && DistinctMaps(all, iif) && k <= |all|
    ensures FirstLeak(all, all[k..], iif, p, forward) == None
    decreases |all| - k
  {
    if k < |all| {
      assert all[k..][1..] == all[k + 1..] && all[k..][0] == all[k];
      DistinctNeverLeak(all, k + 1, iif, p, forward);
      if Heard(all[k], iif, p, forward) && Leaks(all, all[k], iif, p) {
        var i := SomeLister(all, iif, p.fam, PortMap(Signature(all[k], iif)), Value(HeaderProto(p)), DestPort(p));
      }
    }
  }

  // ----- leaks and refusals

  /** Two groups in conflict: the second is refused, and the first decides alone. */
  lemma {:induction false} ConflictRefused(one: SecurityGroup, two: SecurityGroup, iif: Name)
    requires |iif| < 16 && ValidGroup(one) && ValidGroup(two) && Conflict(one, two, iif)
    requires !(Jumps(one, iif) && iif == LO)
    ensures SetSecurityGroups(NewRouter(), [one, two], iif) == Configured(ApplyAll(NewRouter(), [one], iif), false)
  {
    var sgs := [one, two];
    ConfiguredFrom(sgs, 0, iif);
    assert sgs[..0] == [] && sgs[0..] == sgs && sgs[..1] == [one];
    assert Conflict(sgs[0], sgs[1], iif);
    assert Clash(sgs, 1, iif) && !Clash(sgs, 0, iif);
    assert TakenFrom(sgs, 0, iif) == 1;
  }

  /**
   A port leaks: the first group, for forwarded packets, does not list the packet's
   port, the second does but is not one that the packet matches, and they share
   their map. Nothing matches, yet the packet gets the verdict of the second.
   */
  lemma {:induction false} SharedMapLeaks(one: SecurityGroup, two: SecurityGroup, iif: Name, p: Packet)
    requires Given([one, two], iif, p) && Compatible([one, two], iif) && !Mixed(one) && !Mixed(two)
    requires Heard(one, iif, p, true) && Applies(one, p.fam) && ConditionsHold(one, iif, p)
    requires NeedsMap(one.ports) && !HasIcmp(one.ports) && !Lists(one, p)
    requires Signature(one, iif) == Signature(two, iif) && Lists(two, p)
    requires two.dst.NoPrefix? || !Matches(two, iif, p)
    ensures FirstMatching([one, two], iif, p, true) == None
    ensures ForwardVerdict(SetSecurityGroups(NewRouter(), [one, two], iif).router, p) == Some(VerdictOf(two))
  {
    var sgs := [one, two];
    assert ValidGroup(sgs[0]) && ValidGroup(sgs[1]) && sgs[1..] == [two] && [two][1..] == [];
    RefusedFromClash(sgs, iif);
    ForwardFirstMatch(sgs, iif, p);
    PortsMatchParts(one, p);
    SecondLists(one, two, iif, p);
    assert FirstMatching([two], iif, p, true) == None;
  }

  lemma {:induction false} SecondLists(one: SecurityGroup, two: SecurityGroup, iif: Name, p: Packet)
    requires ValidPacket(p) && Compatible([one, two], iif) && !Mixed(one) && !Mixed(two) && Applies(one, p.fam)
    requires Signature(one, iif) == Signature(two, iif) && Lists(two, p)
    ensures LastListing([one, two], iif, p, PortMap(Signature(one, iif))) == Some(VerdictOf(two))
  {
    SameFamilies(one, two, iif, p.fam);
    ListsNeedsMap(two, p);
    ListersAgree([one, two], iif, p.fam, PortMap(Signature(one, iif)), Value(HeaderProto(p)), DestPort(p), 1);
  }

  /** A group that accepts TCP port 80 to a network, and one that denies the network TCP port 443 of the router. */
  function ToNetwork(net: Prefix): SecurityGroup {
    SecurityGroup(false, NoPrefix, net, [], [PortGroup(TCP, 80, 80)])
  }

  function FromNetwork(net: Prefix): SecurityGroup {
    SecurityGroup(true, net, NoPrefix, [], [PortGroup(TCP, 443, 443)])
  }

  /** Together they drop what is forwarded to port 443 of the network, which neither speaks of. */
  lemma {:induction false} InputGroupLeaks(net: Prefix, p: Packet)
    requires ValidPacket(p) && net.Prefix? && ValidPrefix(net) && net.fam == p.fam && Contains(net, DstAddr(p))
    requires HasPort(p) && Value(HeaderProto(p)) == IPPROTO_TCP && DestPort(p) == 443
    ensures var sgs := [ToNetwork(net), FromNetwork(net)];
            && SetSecurityGroups(NewRouter(), sgs, []).ok && FirstMatching(sgs, [], p, true) == None
            && ForwardVerdict(SetSecurityGroups(NewRouter(), sgs, []).router, p) == Some(Drop)
  {
    var one, two := ToNetwork(net), FromNetwork(net);
    var sgs := [one, two];
    ToNetworkFacts(net, p);
    FromNetworkFacts(net, p);
    PortsApart(net);
    assert Given(sgs, [], p);
    RefusedFromClash(sgs, []);
    SharedMapLeaks(one, two, [], p);
  }

  lemma {:induction false} ToNetworkFacts(net: Prefix, p: Packet)
    requires ValidPacket(p) && net.Prefix? && ValidPrefix(net) && net.fam == p.fam && Contains(net, DstAddr(p))
    requires HasPort(p) && DestPort(p) == 443
    ensures var sg := ToNetwork(net);
            && ValidGroup(sg) && !Mixed(sg) && Heard(sg, [], p, true) && Applies(sg, p.fam)
            && ConditionsHold(sg, [], p) && NeedsMap(sg.ports) && !HasIcmp(sg.ports) && !Lists(sg, p)
            && Signature(sg, []) == [NetPart(net)]
  {
    assert ToNetwork(net).ports[0].proto != ICMP;
  }

  lemma {:induction false} FromNetworkFacts(net: Prefix, p: Packet)
    requires ValidPacket(p) && net.Prefix? && ValidPrefix(net)
    requires HasPort(p) && Value(HeaderProto(p)) == IPPROTO_TCP && DestPort(p) == 443
    ensures var sg := FromNetwork(net);
            && ValidGroup(sg) && !Mixed(sg) && sg.dst.NoPrefix? && Lists(sg, p)
            && Signature(sg, []) == [NetPart(net)] && VerdictOf(sg) == Drop
  {
    var pg := FromNetwork(net).ports[0];
    assert pg.proto != ICMP && ProtoNumber(pg.proto) == Some(IPPROTO_TCP) && pg.fromPort <= 443 <= pg.toPort;
  }

  lemma {:induction false} PortsApart(net: Prefix)
    ensures Compatible([ToNetwork(net), FromNetwork(net)], [])
  {
    var sgs := [ToNetwork(net), FromNetwork(net)];
    assert forall proto, port :: PortListed(sgs[0].ports, proto, port) ==> port == 80;
    assert forall proto, port :: PortListed(sgs[1].ports, proto, port) ==> port == 443;
    forall k | 0 <= k < 2 ensures !Clash(sgs, k, []) {
    }
  }

  /**
   The loop over the groups on a new router: it skips mixed groups, binds interfaces
   and ports, saves the rules, and returns at the first batch that the kernel
   refuses. It reports an error exactly if groups clash, and every packet gets the
   verdict of the groups before.
   */
  method ApplyGroups(sgs: seq<SecurityGroup>, iif: Name) returns (c: Configured)
    requires |iif| < 16 && forall i | 0 <= i < |sgs| :: ValidGroup(sgs[i])
    ensures c == SetSecurityGroups(NewRouter(), sgs, iif) && (c.ok <==> Compatible(sgs, iif))
    ensures var done := Done(sgs, iif);
            forall p | ValidPacket(p) ::
              ForwardVerdict(c.router, p) == First(FirstSaying(done, done, iif, p, true), CtVerdict(p))
    ensures var done := Done(sgs, iif);
            forall p | ValidPacket(p) ::
              InputVerdict(c.router, p)
              == First(CtVerdict(p), if p.iifname == LO then Some(Accept) else FirstSaying(done, done, iif, p, false))
  {
    c := LoopGroups(sgs, iif);
    RefusedFromClash(sgs, iif);
    forall p | ValidPacket(p)
      ensures var done := Done(sgs, iif);
              ForwardVerdict(c.router, p) == First(FirstSaying(done, done, iif, p, true), CtVerdict(p))
    {
      ForwardDecides(sgs, iif, p);
    }
    forall p | ValidPacket(p)
      ensures var done := Done(sgs, iif);
              InputVerdict(c.router, p)
              == First(CtVerdict(p), if p.iifname == LO then Some(Accept) else FirstSaying(done, done, iif, p, false))
    {
      InputDecides(sgs, iif, p);
    }
  }

  method LoopGroups(sgs: seq<SecurityGroup>, iif: Name) returns (c: Configured)
    requires |iif| < 16
    ensures c == SetSecurityGroups(NewRouter(), sgs, iif)
  {
    var r := NewRouter();
    for i := 0 to |sgs|
      invariant SetSecurityGroups(r, sgs[i..], iif) == SetSecurityGroups(NewRouter(), sgs, iif)
    {
      var sg := sgs[i];
      assert sgs[i..][0] == sg && sgs[i..][1..] == sgs[i + 1..];
      if !Mixed(sg) {
        if Refused(r, sg, iif) {
          return Configured(r, false);
        }
        if iif != [] && sg.dst.NoPrefix? {
          r := WithJump(r, iif);
        }
        r := WithPorts(r, sg, iif, V4);
        r := WithPorts(r, sg, iif, V6);
        var saved := Save(r.store, SgKey(sg, iif), GroupSpecs(sg, iif), Position(r, sg));
        if saved.Some? {
          r := r.(store := saved.value);
        }
      }
    }
    c := Configured(r, true);
  }
}
