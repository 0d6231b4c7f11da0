/**
 The part of nftables the router programs: rules are lists of expressions over a
 register file, evaluated on a packet against named sets and verdict maps.
 */
module Nft {
  import opened Common
  import opened Bits

  datatype Family = V4 | V6

  /** An IP prefix; NoPrefix is the zero netip.Prefix, which is not valid. */
  datatype Prefix = NoPrefix | Prefix(fam: Family, addr: Bits, bits: nat)

  /** Bytes of an address, and where the header holds source, destination and protocol. */
  datatype Offsets = Offsets(addrLen: nat, src: nat, dst: nat, proto: nat)

  function IpHeaderOffsets(fam: Family): Offsets {
    match fam
    case V4 => Offsets(4, 12, 16, 9)
    case V6 => Offsets(16, 8, 24, 6)
  }

  function HeaderLen(fam: Family): nat {
    match fam
    case V4 => 20
    case V6 => 40
  }

  predicate ValidPrefix(p: Prefix) {
    p.Prefix? ==> |p.addr| == 8 * IpHeaderOffsets(p.fam).addrLen && p.bits <= |p.addr|
  }

  /** The first bits of the address are those of the prefix. */
  predicate Contains(p: Prefix, addr: Bits) {
    p.Prefix? && |addr| == |p.addr| && p.bits <= |addr| && addr[..p.bits] == p.addr[..p.bits]
  }

  datatype Chain = Prerouting | Input | Forward | Inbound(ifname: Name) | NatPrerouting | NatPostrouting

  /** A piece of a security group's signature. */
  datatype Part = IfPart(ifname: Name) | NetPart(net: Prefix)

  datatype SetName = CtStates | DenyList | AllowList | InboundIfNames | PortMap(signature: seq<Part>)

  datatype Verdict = Accept | Drop | Jump(chain: Chain)

  datatype Base = NetworkHeader | TransportHeader

  datatype MetaKey = IifName | OifName | L4Proto

  datatype Expr =
    | Payload(reg: nat, base: Base, offset: nat, len: nat)
    | Bitwise(src: nat, dst: nat, len: nat, mask: Bits, xor: Bits)
    | Cmp(reg: nat, data: Bits)
    | Meta(key: MetaKey, reg: nat)
    | CtState(reg: nat)
    | Lookup(reg: nat, name: SetName, invert: bool)
    | LookupVerdict(reg: nat, name: SetName)
    | Immediate(reg: nat, data: Bits)
    | Give(verdict: Verdict)
    | DestNat(addrReg: nat, portReg: nat)
    | Masquerade

  datatype Packet = Packet(
    fam: Family,
    network: Bits,
    transport: Bits,
    iifname: Name,
    oifname: Name,
    l4proto: nat,
    ctstate: Bits)

  /** A whole IP header; interface names as the kernel bounds them. */
  predicate ValidPacket(p: Packet) {
    |p.network| >= 8 * HeaderLen(p.fam) && |p.iifname| < 16 && |p.oifname| < 16 && p.l4proto < 256 && |p.ctstate| == 32
  }

  /** The kernel's sets and verdict maps of one table. */
  datatype Sets = Sets(sets: map<SetName, set<Bits>>, vmaps: map<SetName, map<Bits, Verdict>>)

  // ----- registers: 64 bytes, seen as four of 16 bytes (1..4) or sixteen of 4 bytes (8..23)

  const REG_BITS: nat := 512

  function RegAt(reg: nat): nat {
    if 1 <= reg <= 4 then 128 * (reg - 1) else if 8 <= reg <= 23 then 32 * (reg - 8) else 0
  }

  function RoundUp(n: nat): (r: nat)
    ensures n <= r < n + 32 && r % 32 == 0
  {
    n + (32 - n % 32) % 32
  }

  predicate Fits(reg: nat, n: nat) {
    RegAt(reg) + RoundUp(n) <= REG_BITS
  }

  /** Stores whole 4-byte words, the last one padded with zeros. */
  function PutReg(regs: Bits, reg: nat, data: Bits): (r: Bits)
    requires |regs| == REG_BITS && Fits(reg, |data|)
    ensures |r| == REG_BITS
  {
    var at := RegAt(reg);
    regs[..at] + data + Zeros(RoundUp(|data|) - |data|) + regs[at + RoundUp(|data|)..]
  }

  function Load(regs: Bits, reg: nat, n: nat): (b: Bits)
    requires |regs| == REG_BITS && Fits(reg, n)
    ensures |b| == n
  {
    regs[RegAt(reg)..RegAt(reg) + n]
  }

  lemma {:induction false} LoadPut(regs: Bits, reg: nat, data: Bits)
    requires |regs| == REG_BITS && Fits(reg, |data|)
    ensures Load(PutReg(regs, reg, data), reg, |data|) == data
  {
  }

  // ----- evaluation

  datatype Step = Continue(regs: Bits) | Break | Hit(v: Verdict)

  function KeyBits(fam: Family, name: SetName): nat {
    match name
    case CtStates => 32
    case InboundIfNames => 128
    case PortMap(_) => 64
    case _ => 8 * IpHeaderOffsets(fam).addrLen
  }

  function MetaValue(key: MetaKey, p: Packet): Bits
    requires ValidPacket(p)
  {
    match key
    case IifName => Padded(p.iifname, 16)
    case OifName => Padded(p.oifname, 16)
    case L4Proto => Num(p.l4proto, 8)
  }

  function MaskXor(v: Bits, mask: Bits, xor: Bits): (r: Bits)
    requires |v| == |mask| == |xor|
    ensures |r| == |v|
  {
    seq(|v|, i requires 0 <= i < |v| => (v[i] && mask[i]) != xor[i])
  }

  function Write(regs: Bits, reg: nat, data: Bits): Step
    requires |regs| == REG_BITS
  {
    if Fits(reg, |data|) then Continue(PutReg(regs, reg, data)) else Break
  }

  function Eval(e: Expr, p: Packet, sets: Sets, regs: Bits): (s: Step)
    requires ValidPacket(p) && |regs| == REG_BITS
    ensures s.Continue? ==> |s.regs| == REG_BITS
  {
    match e
    case Payload(reg, base, offset, len) =>
      var header := if base == NetworkHeader then p.network else p.transport;
      if 8 * (offset + len) <= |header| then Write(regs, reg, header[8 * offset..8 * (offset + len)]) else Break
    case Bitwise(src, dst, len, mask, xor) =>
      if Fits(src, 8 * len) && |mask| == 8 * len == |xor|
      then Write(regs, dst, MaskXor(Load(regs, src, 8 * len), mask, xor))
      else Break
    case Cmp(reg, data) =>
      if Fits(reg, |data|) && Load(regs, reg, |data|) == data then Continue(regs) else Break
    case Meta(key, reg) => Write(regs, reg, MetaValue(key, p))
    case CtState(reg) => Write(regs, reg, p.ctstate)
    case Lookup(reg, name, invert) =>
      var n := KeyBits(p.fam, name);
      if Fits(reg, n) && name in sets.sets && (Load(regs, reg, n) in sets.sets[name]) != invert then Continue(regs)
      else Break
    case LookupVerdict(reg, name) =>
      var n := KeyBits(p.fam, name);
      if Fits(reg, n) && name in sets.vmaps && Load(regs, reg, n) in sets.vmaps[name]
      then Hit(sets.vmaps[name][Load(regs, reg, n)]) else Break
    case Immediate(reg, data) => Write(regs, reg, data)
    case Give(v) => Hit(v)
    case DestNat(_, _) => Hit(Accept)
    case Masquerade => Hit(Accept)
  }

  /** Evaluates expressions until one breaks off the rule or gives a verdict. */
  function EvalAll(es: seq<Expr>, p: Packet, sets: Sets, regs: Bits): (s: Step)
    requires ValidPacket(p) && |regs| == REG_BITS
    ensures s.Continue? ==> |s.regs| == REG_BITS
    decreases |es|
  {
    if es == [] then Continue(regs)
    else match Eval(es[0], p, sets, regs)
      case Continue(regs') => EvalAll(es[1..], p, sets, regs')
      case Break => Break
      case Hit(v) => Hit(v)
  }

  function EvalRule(es: seq<Expr>, p: Packet, sets: Sets): Option<Verdict>
    requires ValidPacket(p)
  {
    match EvalAll(es, p, sets, Zeros(REG_BITS))
    case Hit(v) => Some(v)
    case _ => None
  }

  /** The verdict of the first rule that gives one. */
  function EvalChain(rules: seq<seq<Expr>>, p: Packet, sets: Sets): Option<Verdict>
    requires ValidPacket(p)
    decreases |rules|
  {
    if rules == [] then None
    else match EvalRule(rules[0], p, sets)
      case Some(v) => Some(v)
      case None => EvalChain(rules[1..], p, sets)
  }

  lemma {:induction false} EvalConcat(a: seq<Expr>, b: seq<Expr>, p: Packet, sets: Sets, regs: Bits)
    requires ValidPacket(p) && |regs| == REG_BITS
    ensures EvalAll(a + b, p, sets, regs) == match EvalAll(a, p, sets, regs)
                                             case Continue(regs') => EvalAll(b, p, sets, regs')
                                             case Break => Break
                                             case Hit(v) => Hit(v)
    decreases |a|
  {
    if a == [] {
      assert a + b == b;
    } else {
      assert (a + b)[1..] == a[1..] + b;
      match Eval(a[0], p, sets, regs)
      case Continue(regs') => EvalConcat(a[1..], b, p, sets, regs');
      case Break =>
      case Hit(_) =>
    }
  }

  lemma {:induction false} ChainConcat(a: seq<seq<Expr>>, b: seq<seq<Expr>>, p: Packet, sets: Sets)
    requires ValidPacket(p)
    ensures EvalChain(a + b, p, sets)
         == (if EvalChain(a, p, sets).Some? then EvalChain(a, p, sets) else EvalChain(b, p, sets))
    decreases |a|
  {
    if a == [] {
      assert a + b == b;
    } else {
      assert (a + b)[1..] == a[1..] + b;
      ChainConcat(a[1..], b, p, sets);
    }
  }

  // ----- masked comparison is prefix membership

  /** net.CIDRMask: ones, then zeros. */
  function CidrMask(ones: nat, bits: nat): (m: Bits)
    ensures |m| == bits
  {
    seq(bits, i => i < ones)
  }

  /** netip.Prefix.Masked: the host bits cleared. */
  function Masked(p: Prefix): Bits
    requires p.Prefix?
  {
    seq(|p.addr|, i requires 0 <= i < |p.addr| => p.addr[i] && i < p.bits)
  }

  lemma {:induction false} MaskedCompare(p: Prefix, addr: Bits)
    requires p.Prefix? && ValidPrefix(p) && |addr| == |p.addr|
    ensures MaskXor(addr, CidrMask(p.bits, |addr|), Zeros(|addr|)) == Masked(p) <==> Contains(p, addr)
  {
    var have := MaskXor(addr, CidrMask(p.bits, |addr|), Zeros(|addr|));
    if have == Masked(p) {
      forall i | 0 <= i < p.bits ensures addr[i] == p.addr[i] {
        assert have[i] == addr[i] && Masked(p)[i] == p.addr[i];
      }
    } else if Contains(p, addr) {
      forall i | 0 <= i < |addr| ensures have[i] == Masked(p)[i] {
        assert i < p.bits ==> addr[..p.bits][i] == p.addr[..p.bits][i];
      }
    }
  }

  // ----- the building blocks of the router's rules

  function SrcAddr(p: Packet): (b: Bits)
    requires ValidPacket(p)
    ensures |b| == 8 * IpHeaderOffsets(p.fam).addrLen
  {
    var o := IpHeaderOffsets(p.fam);
    p.network[8 * o.src..8 * (o.src + o.addrLen)]
  }

  function DstAddr(p: Packet): (b: Bits)
    requires ValidPacket(p)
    ensures |b| == 8 * IpHeaderOffsets(p.fam).addrLen
  {
    var o := IpHeaderOffsets(p.fam);
    p.network[8 * o.dst..8 * (o.dst + o.addrLen)]
  }

  /** Load an address, mask it, compare it with the network. */
  function AddrExprs(fam: Family, offset: nat, net: Prefix): seq<Expr>
    requires net.Prefix?
  {
    var n := IpHeaderOffsets(fam).addrLen;
    [Payload(1, NetworkHeader, offset, n),
     Bitwise(1, 1, n, CidrMask(net.bits, 8 * n), Zeros(8 * n)),
     Cmp(1, Masked(net))]
  }

  function IfExprs(key: MetaKey, ifname: Name): seq<Expr> {
    [Meta(key, 1), Cmp(1, Encode(ifname) + Zeros(8))]
  }

  lemma {:induction false} EvalTwo(a: Expr, b: Expr, p: Packet, sets: Sets, regs: Bits)
    requires ValidPacket(p) && |regs| == REG_BITS
    requires Eval(a, p, sets, regs).Continue?
    ensures EvalAll([a, b], p, sets, regs) == Eval(b, p, sets, Eval(a, p, sets, regs).regs)
  {
    var r := Eval(a, p, sets, regs).regs;
    assert [a, b][1..] == [b] && [b][1..] == [];
    match Eval(b, p, sets, r)
    case Continue(r') => assert EvalAll([], p, sets, r') == Continue(r');
    case Break =>
    case Hit(_) =>
  }

  lemma {:induction false} EvalThree(a: Expr, b: Expr, c: Expr, p: Packet, sets: Sets, regs: Bits)
    requires ValidPacket(p) && |regs| == REG_BITS
    requires Eval(a, p, sets, regs).Continue? && Eval(b, p, sets, Eval(a, p, sets, regs).regs).Continue?
    ensures EvalAll([a, b, c], p, sets, regs)
         == Eval(c, p, sets, Eval(b, p, sets, Eval(a, p, sets, regs).regs).regs)
  {
    EvalTwo(b, c, p, sets, Eval(a, p, sets, regs).regs);
    assert [a, b, c][1..] == [b, c];
  }

  /** An address test goes on exactly when the address is in the prefix. */
  lemma {:induction false} EvalAddr(offset: nat, net: Prefix, p: Packet, sets: Sets, regs: Bits)
    requires ValidPacket(p) && |regs| == REG_BITS
    requires net.Prefix? && ValidPrefix(net) && net.fam == p.fam
    requires 8 * (offset + IpHeaderOffsets(p.fam).addrLen) <= |p.network|
    ensures var addr := p.network[8 * offset..8 * (offset + IpHeaderOffsets(p.fam).addrLen)];
            var s := EvalAll(AddrExprs(p.fam, offset, net), p, sets, regs);
            if Contains(net, addr) then s.Continue? else s == Break
  {
    var n := IpHeaderOffsets(p.fam).addrLen;
    var addr := p.network[8 * offset..8 * (offset + n)];
    var es := AddrExprs(p.fam, offset, net);
    var r1 := PutReg(regs, 1, addr);
    LoadPut(regs, 1, addr);
    assert Eval(es[0], p, sets, regs) == Continue(r1);
    var masked := MaskXor(addr, CidrMask(net.bits, |addr|), Zeros(|addr|));
    var r2 := PutReg(r1, 1, masked);
    LoadPut(r1, 1, masked);
    assert Eval(es[1], p, sets, r1) == Continue(r2);
    EvalThree(es[0], es[1], es[2], p, sets, regs);
    MaskedCompare(net, addr);
  }

  function IfNameOf(key: MetaKey, p: Packet): Name {
    if key == IifName then p.iifname else p.oifname
  }

  /** An interface test goes on exactly on that interface. */
  lemma {:induction false} EvalIf(key: MetaKey, ifname: Name, p: Packet, sets: Sets, regs: Bits)
    requires ValidPacket(p) && |regs| == REG_BITS && key != L4Proto && |ifname| < 16
    ensures var s := EvalAll(IfExprs(key, ifname), p, sets, regs);
            if IfNameOf(key, p) == ifname then s.Continue? else s == Break
  {
    var have := Padded(IfNameOf(key, p), 16);
    var want := Encode(ifname) + Zeros(8);
    var es := IfExprs(key, ifname);
    var r1 := PutReg(regs, 1, have);
    LoadPut(regs, 1, have);
    assert Eval(es[0], p, sets, regs) == Continue(r1);
    EvalTwo(es[0], es[1], p, sets, regs);
    assert Load(r1, 1, |want|) == Load(r1, 1, 128)[..|want|];
    NameCompare(IfNameOf(key, p), ifname, 16);
  }
}
