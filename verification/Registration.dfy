/**
 Publishing an axon address on the chain, reading it back, and the startup
 registration that publishes only when what it reads back differs.
 */
module Registration {
  import opened Basics
  import opened Text

  datatype Ipv4 = Ipv4(a: nat, b: nat, c: nat, d: nat)
  {
    predicate Valid() { a < 256 && b < 256 && c < 256 && d < 256 }
  }

  datatype SocketAddr = SocketAddr(ip: Ipv4, port: nat)
  {
    predicate Valid() { ip.Valid() && port < 65536 }
  }

  /** The chain's record of an axon. */
  datatype Axon = Axon(ip: nat, port: nat, ipType: nat)

  // ----- Writing the record -----

  /** The address as a 32-bit number, most significant byte first. */
  function Bits(ip: Ipv4): nat {
    ((ip.a * 256 + ip.b) * 256 + ip.c) * 256 + ip.d
  }

  function Encode(addr: SocketAddr): Axon {
    Axon(Bits(addr.ip), addr.port, 4)
  }

  // ----- Reading it back -----

  /** The truncating cast. */
  function AsU32(n: nat): (r: nat)
    ensures n < 0x1_0000_0000 ==> r == n
  {
    n % 0x1_0000_0000
  }

  function FromBits(bits: nat): (ip: Ipv4)
    ensures ip.Valid()
  {
    var abc := bits / 256;
    var ab := abc / 256;
    Ipv4(ab / 256 % 256, ab % 256, abc % 256, bits % 256)
  }

  function PrintIp(ip: Ipv4): string {
    Join([Decimal(ip.a), Decimal(ip.b), Decimal(ip.c), Decimal(ip.d)], '.')
  }

  /** A byte in dotted notation: one to three digits, no leading zero. */
  function ParseOctet(s: string): Option<nat> {
    if 1 <= |s| <= 3 && AllDigits(s) && (s[0] != '0' || |s| == 1) && Value(s) < 256 then Some(Value(s)) else None
  }

  function ParsePort(s: string): Option<nat> {
    if s != "" && AllDigits(s) && Value(s) < 65536 then Some(Value(s)) else None
  }

  function ParseIp(s: string): Option<Ipv4> {
    var parts := Split(s, '.');
    if |parts| != 4 then None
    else
      var (a, b, c, d) := (ParseOctet(parts[0]), ParseOctet(parts[1]), ParseOctet(parts[2]), ParseOctet(parts[3]));
      if a.Some? && b.Some? && c.Some? && d.Some? then Some(Ipv4(a.value, b.value, c.value, d.value)) else None
  }

  function ParseSocket(s: string): Option<SocketAddr> {
    var parts := Split(s, ':');
    if |parts| != 2 then None
    else
      var (ip, port) := (ParseIp(parts[0]), ParsePort(parts[1]));
      if ip.Some? && port.Some? then Some(SocketAddr(ip.value, port.value)) else None
  }

  /** A record of another kind than IPv4 prints as bare hexadecimal, which is no socket address. */
  function Decode(axon: Axon): Option<SocketAddr> {
    if axon.ip == 0 || axon.port == 0 || axon.ipType != 4 then None
    else
      var text := PrintIp(FromBits(AsU32(axon.ip)));
      if text == "0.0.0.0" || text == "127.0.0.1" then None
      else ParseSocket(text + ":" + Decimal(axon.port))
  }

  const UNSPECIFIED := Ipv4(0, 0, 0, 0)
  const LOOPBACK := Ipv4(127, 0, 0, 1)

  lemma LastByte(x: nat, byte: nat)
    requires byte < 256
    ensures (x * 256 + byte) / 256 == x && (x * 256 + byte) % 256 == byte
  {
  }

  lemma BitsRange(ip: Ipv4)
    requires ip.Valid()
    ensures Bits(ip) < 0x1_0000_0000
    ensures Bits(ip) == 0 <==> ip == UNSPECIFIED
  {
  }

  lemma BitsRoundTrip(ip: Ipv4)
    requires ip.Valid()
    ensures FromBits(Bits(ip)) == ip
  {
    var ab := ip.a * 256 + ip.b;
    var abc := ab * 256 + ip.c;
    var bits := Bits(ip);
    assert bits / 256 == abc && bits % 256 == ip.d by { LastByte(abc, ip.d); }
    assert abc / 256 == ab && abc % 256 == ip.c by { LastByte(ab, ip.c); }
    assert ab / 256 == ip.a && ab % 256 == ip.b by { LastByte(ip.a, ip.b); }
  }

  /** The first byte of an address is the most significant of its number. */
  lemma BitsAreBigEndian(ip: Ipv4)
    ensures Bits(ip) == ip.a * 0x100_0000 + ip.b * 0x1_0000 + ip.c * 0x100 + ip.d
  {
  }

  lemma BitsOfFromBits(bits: nat)
    requires bits < 0x1_0000_0000
    ensures Bits(FromBits(bits)) == bits
  {
    var abc := bits / 256;
    var ab := abc / 256;
    assert ab / 256 < 256;
  }

  lemma OctetRoundTrip(n: nat)
    requires n < 256
    ensures ParseOctet(Decimal(n)) == Some(n)
  {
    ValueOfDecimal(n);
    assert |Decimal(n)| <= 3 by {
      if n >= 100 {
        assert |Decimal(n / 10 / 10)| == 1;
      }
    }
  }

  lemma {:induction false} JoinFree(parts: seq<string>, sep: char, other: char)
    requires AllFree(parts, other) && sep != other
    ensures Free(Join(parts, sep), other)
  {
    if |parts| > 1 {
      JoinFree(parts[1..], sep, other);
    }
  }

  lemma IpRoundTrip(ip: Ipv4)
    requires ip.Valid()
    ensures ParseIp(PrintIp(ip)) == Some(ip) && Free(PrintIp(ip), ':')
  {
    var parts := [Decimal(ip.a), Decimal(ip.b), Decimal(ip.c), Decimal(ip.d)];
    SplitJoin(parts, '.');
    OctetRoundTrip(ip.a);
    OctetRoundTrip(ip.b);
    OctetRoundTrip(ip.c);
    OctetRoundTrip(ip.d);
    JoinFree(parts, '.', ':');
  }

  lemma SocketRoundTrip(addr: SocketAddr)
    requires addr.Valid()
    ensures ParseSocket(PrintIp(addr.ip) + ":" + Decimal(addr.port)) == Some(addr)
  {
    IpRoundTrip(addr.ip);
    SplitAtFirst(PrintIp(addr.ip), Decimal(addr.port), ':');
    DigitsAreFree(Decimal(addr.port), ':');
    SplitFree(Decimal(addr.port), ':');
    ValueOfDecimal(addr.port);
  }

  lemma PrintIpInjective(a: Ipv4, b: Ipv4)
    requires a.Valid() && b.Valid() && PrintIp(a) == PrintIp(b)
    ensures a == b
  {
    IpRoundTrip(a);
    IpRoundTrip(b);
  }

  predicate Publishable(addr: SocketAddr) {
    addr.ip != UNSPECIFIED && addr.ip != LOOPBACK && addr.port != 0
  }

  lemma SpecialAddressesPrint()
    ensures PrintIp(UNSPECIFIED) == "0.0.0.0" && PrintIp(LOOPBACK) == "127.0.0.1"
  {
    assert Decimal(127) == "127" by {
      assert Decimal(12) == "12";
    }
  }

  lemma OnlySpecialPrintsSpecial(ip: Ipv4)
    requires ip.Valid()
    ensures PrintIp(ip) == "0.0.0.0" <==> ip == UNSPECIFIED
    ensures PrintIp(ip) == "127.0.0.1" <==> ip == LOOPBACK
  {
    SpecialAddressesPrint();
    if PrintIp(ip) == PrintIp(UNSPECIFIED) {
      PrintIpInjective(ip, UNSPECIFIED);
    }
    if PrintIp(ip) == PrintIp(LOOPBACK) {
      PrintIpInjective(ip, LOOPBACK);
    }
  }

  /** A published address is read back exactly when it is neither special nor without a port. */
  lemma RoundTripExactly(addr: SocketAddr)
    requires addr.Valid()
    ensures Decode(Encode(addr)) == if Publishable(addr) then Some(addr) else None
  {
    BitsRange(addr.ip);
    BitsRoundTrip(addr.ip);
    OnlySpecialPrintsSpecial(addr.ip);
    SocketRoundTrip(addr);
  }

  lemma SpecialBits(bits: nat)
    requires bits < 0x1_0000_0000
    ensures FromBits(bits) == UNSPECIFIED <==> bits == 0
    ensures FromBits(bits) == LOOPBACK <==> bits == 0x7F00_0001
  {
    BitsAreBigEndian(LOOPBACK);
    BitsAreBigEndian(UNSPECIFIED);
    hide FromBits, Bits;
    BitsOfFromBits(bits);
    BitsRoundTrip(LOOPBACK);
    BitsRoundTrip(UNSPECIFIED);
  }

  /** What any record is read as: the IPv4 address of its low 32 bits, unless that is special or there is no port. */
  lemma DecodeExactly(axon: Axon)
    requires axon.port < 65536
    ensures var low := axon.ip % 0x1_0000_0000;
            && (Decode(axon).Some? <==>
                axon.ipType == 4 && axon.port != 0 && low != 0 && low != 0x7F00_0001)
            && (Decode(axon).Some? ==>
                Decode(axon).value.Valid() && Bits(Decode(axon).value.ip) == low && Decode(axon).value.port == axon.port)
  {
    var low := axon.ip % 0x1_0000_0000;
    assert AsU32(axon.ip) == low;
    hide AsU32, FromBits, Bits, PrintIp, ParseSocket;
    BitsOfFromBits(low);
    SpecialBits(low);
    OnlySpecialPrintsSpecial(FromBits(low));
    SocketRoundTrip(SocketAddr(FromBits(low), axon.port));
  }

  /** The loopback address is published but never read back. */
  lemma LoopbackIsLost(port: nat)
    requires 0 < port < 65536
    ensures Encode(SocketAddr(LOOPBACK, port)).ip != 0 && Decode(Encode(SocketAddr(LOOPBACK, port))) == None
  {
    RoundTripExactly(SocketAddr(LOOPBACK, port));
  }

  // ----- Startup registration -----

  /** The metagraph: hotkeys by index, and the axon records beside them. */
  datatype Chain = Chain(hotkeys: seq<string>, axons: seq<Axon>)

  /** How a submission ends; only the first puts the record on the chain. */
  datatype Submission = Accepted | Outdated | RateLimited | Rejected

  datatype Error = NoMetagraph | NotRegistered | InvalidAddress | TooFrequent | Failed

  /** The first index with this hotkey. */
  function Find(hotkeys: seq<string>, hotkey: string): (r: Option<nat>)
    ensures r.Some? <==> hotkey in hotkeys
    ensures r.Some? ==> r.value < |hotkeys| && hotkeys[r.value] == hotkey
    ensures r.Some? ==> forall i :: 0 <= i < r.value ==> hotkeys[i] != hotkey
  {
    if hotkeys == [] then None
    else if hotkeys[0] == hotkey then Some(0)
    else
      var rest := Find(hotkeys[1..], hotkey);
      if rest.None? then None else Some(rest.value + 1)
  }

  /** The truncating cast of an index to a uid. */
  function Uid(index: nat): (uid: nat)
    ensures index < 65536 ==> uid == index
  {
    index % 65536
  }

  function AxonAt(chain: Chain, uid: nat): Option<SocketAddr> {
    if uid < |chain.axons| then Decode(chain.axons[uid]) else None
  }

  /** Startup submits unless the address read back for its own uid is the one it wants. */
  function NeedsUpdate(chain: Chain, index: nat, addr: SocketAddr): bool {
    AxonAt(chain, Uid(index)) != Some(addr)
  }

  function Publish(chain: Chain, index: nat, addr: SocketAddr): Chain {
    if index < |chain.axons| then chain.(axons := chain.axons[index := Encode(addr)]) else chain
  }

  /** The chain after one startup, and whether it submitted. */
  function Startup(chain: Chain, hotkey: string, addr: SocketAddr, outcome: Submission): (Chain, bool) {
    var index := Find(chain.hotkeys, hotkey);
    if index.None? || !NeedsUpdate(chain, index.value, addr) then (chain, false)
    else (if outcome.Accepted? then Publish(chain, index.value, addr) else chain, true)
  }

  /** The address read back for a hotkey, if there is one. */
  function Advertised(chain: Chain, hotkey: string): Option<SocketAddr> {
    var index := Find(chain.hotkeys, hotkey);
    if index.Some? && index.value < |chain.axons| then Decode(chain.axons[index.value]) else None
  }

  /** A slot for every hotkey, and no more of them than a uid can number. */
  predicate Regular(chain: Chain) {
    |chain.axons| == |chain.hotkeys| <= 65536
  }

  /**
   Whatever was in the hotkey's slot, an accepted startup leaves the wanted
   address there, having submitted just when another one was read back, and
   touches no other slot.
   */
  lemma StartupAdvertises(chain: Chain, hotkey: string, addr: SocketAddr)
    requires Regular(chain) && hotkey in chain.hotkeys && addr.Valid()
    ensures var (chain', submitted) := Startup(chain, hotkey, addr, Accepted);
            && (submitted <==> Advertised(chain, hotkey) != Some(addr))
            && (Publishable(addr) ==> Advertised(chain', hotkey) == Some(addr))
            && chain'.hotkeys == chain.hotkeys && |chain'.axons| == |chain.axons|
            && (forall i :: 0 <= i < |chain.hotkeys| && i != Find(chain.hotkeys, hotkey).value ==>
                  chain'.axons[i] == chain.axons[i])
  {
    hide Decode, Encode;
    RoundTripExactly(addr);
  }

  class ChainRegistration {
    const hotkey: string
    const skipRegistration: bool
    var isRegistered: bool
    var registrationTime: Option<int>
    var discoveredUid: Option<nat>

    constructor (hotkey: string, skipRegistration: bool)
      ensures this.hotkey == hotkey && this.skipRegistration == skipRegistration
      ensures !isRegistered && registrationTime == None && discoveredUid == None
    {
      this.hotkey, this.skipRegistration := hotkey, skipRegistration;
      isRegistered, registrationTime, discoveredUid := false, None, None;
    }

    /** `fetched` tells whether the metagraph could be read; `addr` is None when no valid axon address can be determined. */
    method RegisterStartup(chain: Chain, fetched: bool, addr: Option<SocketAddr>, outcome: Submission, now: int)
      returns (r: Result<(), Error>, chain': Chain, submitted: bool)
      modifies this
      ensures skipRegistration ==> r.Success? && discoveredUid == Some(0) && !submitted && chain' == chain
      ensures !skipRegistration && !fetched ==>
                r == Failure(NoMetagraph) && discoveredUid == old(discoveredUid) && !submitted && chain' == chain
      ensures !skipRegistration && fetched ==>
                var index := Find(chain.hotkeys, hotkey);
                && discoveredUid == (if index.Some? then Some(Uid(index.value)) else old(discoveredUid))
                && (index.None? ==> r == Failure(NotRegistered))
                && (index.Some? && addr.None? ==> r == Failure(InvalidAddress))
                && (index.Some? && addr.Some? ==>
                      && (chain', submitted) == Startup(chain, hotkey, addr.value, outcome)
                      && (r.Success? <==> (submitted ==> outcome.Accepted? || outcome.Outdated?))
                      && (r.Failure? ==> r.error == if outcome.RateLimited? then TooFrequent else Failed))
                && (index.None? || addr.None? ==> chain' == chain && !submitted)
      ensures !skipRegistration && r.Success? && outcome.Accepted? && addr.Some? && addr.value.Valid() && Regular(chain) ==>
                && (submitted <==> Advertised(chain, hotkey) != addr)
                && (Publishable(addr.value) ==> Advertised(chain', hotkey) == addr)
      ensures isRegistered <==> r.Success? || old(isRegistered)
      ensures registrationTime == if r.Success? then Some(now) else old(registrationTime)
    {
      hide Decode, Encode;
      chain', submitted := chain, false;
      if skipRegistration {
        isRegistered, registrationTime, discoveredUid := true, Some(now), Some(0);
        return Success(()), chain', submitted;
      }
      if !fetched {
        return Failure(NoMetagraph), chain', submitted;
      }
      var index := Find(chain.hotkeys, hotkey);
      if index.None? {
        return Failure(NotRegistered), chain', submitted;
      }
      var uid := Uid(index.value);
      discoveredUid := Some(uid);
      if addr.None? {
        return Failure(InvalidAddress), chain', submitted;
      }
      if addr.value.Valid() && Regular(chain) {
        StartupAdvertises(chain, hotkey, addr.value);
      }
      var current := AxonAt(chain, uid);
      var needsUpdate := if current.Some? then current.value != addr.value else true;
      if needsUpdate {
        submitted := true;
        match outcome {
          case Accepted => chain' := Publish(chain, index.value, addr.value);
          case Outdated =>
          case RateLimited => return Failure(TooFrequent), chain', submitted;
          case Rejected => return Failure(Failed), chain', submitted;
        }
      }
      isRegistered, registrationTime := true, Some(now);
      return Success(()), chain', submitted;
    }
  }

  /** How many of a series of startups with one address submit. */
  function Submissions(chain: Chain, hotkey: string, addr: SocketAddr, outcomes: seq<Submission>): nat
    decreases |outcomes|
  {
    if outcomes == [] then 0
    else
      var (chain', submitted) := Startup(chain, hotkey, addr, outcomes[0]);
      (if submitted then 1 else 0) + Submissions(chain', hotkey, addr, outcomes[1..])
  }

  predicate Holds(chain: Chain, hotkey: string, addr: SocketAddr) {
    var index := Find(chain.hotkeys, hotkey);
    index.Some? && index.value < 65536 && index.value < |chain.axons| && chain.axons[index.value] == Encode(addr)
  }

  lemma HeldAxonDecides(chain: Chain, index: nat, addr: SocketAddr)
    requires addr.Valid() && index < 65536 && index < |chain.axons| && chain.axons[index] == Encode(addr)
    ensures NeedsUpdate(chain, index, addr) <==> !Publishable(addr)
  {
    hide Decode, Encode;
    RoundTripExactly(addr);
  }

  lemma NextStartup(chain: Chain, hotkey: string, addr: SocketAddr, outcome: Submission)
    requires addr.Valid() && Holds(chain, hotkey, addr)
    ensures Startup(chain, hotkey, addr, outcome) == (chain, !Publishable(addr))
  {
    hide NeedsUpdate, Encode;
    var index := Find(chain.hotkeys, hotkey).value;
    HeldAxonDecides(chain, index, addr);
    assert chain.axons[index := Encode(addr)] == chain.axons;
  }

  lemma {:induction false} RepeatedStartups(chain: Chain, hotkey: string, addr: SocketAddr, outcomes: seq<Submission>)
    requires addr.Valid() && Holds(chain, hotkey, addr)
    ensures Submissions(chain, hotkey, addr, outcomes) == if Publishable(addr) then 0 else |outcomes|
    decreases |outcomes|
  {
    if outcomes == [] {
    } else {
      NextStartup(chain, hotkey, addr, outcomes[0]);
      RepeatedStartups(chain, hotkey, addr, outcomes[1..]);
    }
  }

  /**
   Registration is idempotent exactly for publishable addresses: after an
   accepted submission, later startups submit never, or else every time.
   */
  lemma OncePublishedThenSilent(chain: Chain, hotkey: string, addr: SocketAddr, outcomes: seq<Submission>)
    requires addr.Valid() && hotkey in chain.hotkeys && |chain.axons| == |chain.hotkeys| <= 65536
    requires Startup(chain, hotkey, addr, Accepted).1
    ensures Submissions(Startup(chain, hotkey, addr, Accepted).0, hotkey, addr, outcomes)
            == if Publishable(addr) then 0 else |outcomes|
  {
    RepeatedStartups(Startup(chain, hotkey, addr, Accepted).0, hotkey, addr, outcomes);
  }
}
