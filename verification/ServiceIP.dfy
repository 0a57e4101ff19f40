/** Big-endian address arithmetic: the successor of an address and the first
    address of a service network (pkg/controllers/kubeservice/kas/certs.go). */
module ServiceIP {

  type Octet = x: int | 0 <= x < 256

  function Pow256(n: nat): (r: nat)
    ensures r > 0
  {
    if n == 0 then 1 else 256 * Pow256(n - 1)
  }

  /** The number an address denotes when its bytes are read big-endian. */
  function Value(ip: seq<Octet>): nat {
    if ip == [] then 0 else 256 * Value(ip[..|ip| - 1]) + ip[|ip| - 1]
  }

  lemma {:induction false} ValueBound(ip: seq<Octet>)
    ensures Value(ip) < Pow256(|ip|)
  {
    if ip != [] {
      ValueBound(ip[..|ip| - 1]);
    }
  }

  /** An address is determined by its length and its value. */
  lemma {:induction false} ValueInjective(a: seq<Octet>, b: seq<Octet>)
    requires |a| == |b| && Value(a) == Value(b)
    ensures a == b
  {
    if a != [] {
      var n := |a| - 1;
      ValueInjective(a[..n], b[..n]);
      assert a == a[..n] + [a[n]] && b == b[..n] + [b[n]];
    }
  }

  /** Increment with carry, as a function of the whole byte string. */
  function Successor(ip: seq<Octet>): (r: seq<Octet>)
    ensures |r| == |ip|
  {
    if ip == [] then []
    else
      var n := |ip| - 1;
      if ip[n] < 255 then ip[..n] + [ip[n] + 1] else Successor(ip[..n]) + [0]
  }

  /** The successor adds one, and the highest address wraps to zero. */
  lemma {:induction false} SuccessorValue(ip: seq<Octet>)
    ensures Value(ip) < Pow256(|ip|)
    ensures Value(Successor(ip)) == if Value(ip) + 1 == Pow256(|ip|) then 0 else Value(ip) + 1
  {
    ValueBound(ip);
    if ip != [] {
      var n := |ip| - 1;
      SuccessorValue(ip[..n]);
      assert Successor(ip)[..n] == if ip[n] < 255 then ip[..n] else Successor(ip[..n]);
    }
  }

  function Advance(ip: seq<Octet>, k: nat): (r: seq<Octet>)
    ensures |r| == |ip|
  {
    if k == 0 then ip else Successor(Advance(ip, k - 1))
  }

  /** Applying the successor k times adds k modulo the size of the address space. */
  lemma {:induction false} AdvanceValue(ip: seq<Octet>, k: nat)
    ensures Value(Advance(ip, k)) == (Value(ip) + k) % Pow256(|ip|)
  {
    var wraps := AdvanceWraps(ip, k);
    ValueBound(Advance(ip, k));
    ModUnique(Value(ip) + k, wraps, Value(Advance(ip, k)), Pow256(|ip|));
  }

  lemma {:induction false} AdvanceWraps(ip: seq<Octet>, k: nat) returns (wraps: nat)
    ensures Value(ip) + k == wraps * Pow256(|ip|) + Value(Advance(ip, k))
  {
    if k == 0 {
      wraps := 0;
    } else {
      wraps := AdvanceWraps(ip, k - 1);
      SuccessorValue(Advance(ip, k - 1));
      if Value(Advance(ip, k - 1)) + 1 == Pow256(|ip|) {
        MulStep(wraps, Pow256(|ip|));
        wraps := wraps + 1;
      }
    }
  }

  lemma MulStep(a: int, m: int)
    ensures (a + 1) * m == a * m + m
  {
  }

  lemma MulAtLeast(a: int, b: int, m: nat)
    requires a > b
    ensures a * m >= b * m + m
  {
    assert (a - b - 1) * m >= 0;
    assert (a - b - 1) * m == a * m - b * m - m;
  }

  lemma ModUnique(x: nat, q: nat, r: nat, m: nat)
    requires r < m && x == q * m + r
    ensures x % m == r
  {
    assert x == (x / m) * m + x % m && 0 <= x % m < m;
    if q > x / m {
      MulAtLeast(q, x / m, m);
    } else if q < x / m {
      MulAtLeast(x / m, q, m);
    }
  }

  function Zeros(n: nat): (z: seq<Octet>)
    ensures |z| == n
  {
    seq(n, _ => 0)
  }

  /** Trailing 255s become zeros and the byte before them, if any, is incremented. */
  lemma {:induction false} SuccessorSplit(ip: seq<Octet>, j: int)
    requires -1 <= j < |ip|
    requires forall k :: j < k < |ip| ==> ip[k] == 255
    requires j >= 0 ==> ip[j] < 255
    ensures j >= 0 ==> Successor(ip) == ip[..j] + [ip[j] + 1] + Zeros(|ip| - j - 1)
    ensures j < 0 ==> Successor(ip) == Zeros(|ip|)
  {
    var n := |ip| - 1;
    if n >= 0 && j < n {
      SuccessorSplit(ip[..n], j);
      assert Zeros(n - j) == Zeros(n - j - 1) + [0];
      if j >= 0 {
        assert ip[..n][..j] == ip[..j];
      }
    }
  }

  /** kas/certs.go nextIP: copy, then increment from the last byte while bytes
      wrap to zero.  The argument is not written. */
  method NextIP(ip: array<Octet>) returns (next: array<Octet>)
    ensures fresh(next)
    ensures next[..] == Successor(ip[..])
  {
    next := new Octet[ip.Length];
    forall i | 0 <= i < ip.Length {
      next[i] := ip[i];
    }
    var j := next.Length - 1;
    while j >= 0
      invariant -1 <= j < next.Length == ip.Length
      invariant forall k :: 0 <= k <= j ==> next[k] == ip[k]
      invariant forall k :: j < k < next.Length ==> next[k] == 0 && ip[k] == 255
    {
      next[j] := if next[j] == 255 then 0 else next[j] + 1;
      if next[j] > 0 {
        break;
      }
      j := j - 1;
    }
    SuccessorSplit(ip[..], j);
  }

  /** How many leading bits of byte i a prefix of the given length fixes. */
  function KeptBits(prefix: nat, i: nat): (k: nat)
    ensures k <= 8
  {
    if prefix <= 8 * i then 0 else if prefix - 8 * i >= 8 then 8 else prefix - 8 * i
  }

  /** The number of values the free low bits of a byte can take. */
  function FreeUnit(kept: nat): (u: nat)
    requires kept <= 8
    ensures u > 0
  {
    [256, 128, 64, 32, 16, 8, 4, 2, 1][kept]
  }

  /** The part of byte i that the prefix fixes, and the part it leaves to hosts. */
  function NetworkPart(b: Octet, prefix: nat, i: nat): nat {
    b / FreeUnit(KeptBits(prefix, i))
  }

  function HostPart(b: Octet, prefix: nat, i: nat): nat {
    b % FreeUnit(KeptBits(prefix, i))
  }

  /** All host bits are zero, which is what parsing a CIDR leaves in the network address. */
  predicate Masked(ip: seq<Octet>, prefix: nat) {
    forall i :: 0 <= i < |ip| ==> HostPart(ip[i], prefix, i) == 0
  }

  /** Byte by byte, the two addresses agree on the bits the prefix fixes. */
  predicate InNetwork(network: seq<Octet>, prefix: nat, ip: seq<Octet>) {
    |ip| == |network| &&
    forall i :: 0 <= i < |ip| ==> NetworkPart(ip[i], prefix, i) == NetworkPart(network[i], prefix, i)
  }

  function Pow2(n: nat): (r: nat)
    ensures r > 0
  {
    if n == 0 then 1 else 2 * Pow2(n - 1)
  }

  lemma MulTwo(x: nat, y: nat)
    ensures (2 * x) * y == 2 * (x * y)
  {
  }

  lemma {:induction false} Pow2Add(a: nat, b: nat)
    ensures Pow2(a + b) == Pow2(a) * Pow2(b)
  {
    if a > 0 {
      Pow2Add(a - 1, b);
      MulTwo(Pow2(a - 1), Pow2(b));
      assert a + b - 1 == a - 1 + b;
    }
  }

  lemma SmallPowers()
    ensures Pow2(0) == 1 && Pow2(1) == 2 && Pow2(2) == 4 && Pow2(3) == 8 && Pow2(4) == 16
    ensures Pow2(5) == 32 && Pow2(6) == 64 && Pow2(7) == 128 && Pow2(8) == 256
  {
    assert Pow2(4) == 16;
    assert Pow2(6) == 64;
  }

  /** The free values of the byte are a power of two. */
  lemma UnitIsPower(kept: nat)
    requires kept <= 8
    ensures FreeUnit(kept) == Pow2(8 - kept)
  {
    SmallPowers();
  }

  /** Whole bytes to the right of the prefix do not matter. */
  lemma DropByte(v: nat, b: Octet, host: nat)
    requires host >= 8
    ensures (256 * v + b) / Pow2(host) == v / Pow2(host - 8)
  {
    SmallPowers();
    Pow2Add(8, host - 8);
    DropNumbers(v, b, Pow2(host - 8));
  }

  lemma DropNumbers(v: nat, b: Octet, m: nat)
    requires m > 0
    ensures (256 * v + b) / (256 * m) == v / m
  {
    var q, r := v / m, v % m;
    assert v == q * m + r && r < m;
    MulBytes(q, m);
    DivUnique(256 * v + b, 256 * m, q, 256 * r + b);
  }

  lemma MulBytes(q: nat, m: nat)
    ensures q * (256 * m) == 256 * (q * m)
  {
  }

  lemma QuotientUnique(q: nat, r: nat, q': nat, r': nat, m: nat)
    requires r < m && r' < m && q * m + r == q' * m + r'
    ensures q == q' && r == r'
  {
    if q > q' {
      MulAtLeast(q, q', m);
    } else if q' > q {
      MulAtLeast(q', q, m);
    }
  }

  lemma DivUnique(x: nat, m: nat, q: nat, r: nat)
    requires r < m && x == q * m + r
    ensures x / m == q
  {
    assert x == (x / m) * m + x % m;
    QuotientUnique(q, r, x / m, x % m, m);
  }

  /** The prefix ends in this byte: the parts before it and its own part decide. */
  lemma SplitByte(v: nat, b: Octet, v': nat, b': Octet, host: nat)
    requires host <= 8
    ensures (256 * v + b) / Pow2(host) == (256 * v' + b') / Pow2(host) <==>
            v == v' && b / FreeUnit(8 - host) == b' / FreeUnit(8 - host)
  {
    UnitIsPower(8 - host);
    Pow2Add(host, 8 - host);
    SmallPowers();
    SplitNumbers(v, b, v', b', Pow2(8 - host), Pow2(host));
  }

  lemma SplitNumbers(v: nat, b: Octet, v': nat, b': Octet, k: nat, u: nat)
    requires u * k == 256 && u > 0
    ensures (256 * v + b) / u == (256 * v' + b') / u <==> v == v' && b / u == b' / u
  {
    assert k * u == u * k;
    ByteQuotient(v, b, k, u);
    ByteQuotient(v', b', k, u);
    if v * k + b / u == v' * k + b' / u {
      QuotientUnique(v, b / u, v', b' / u, k);
    }
  }

  lemma ByteQuotient(v: nat, b: Octet, k: nat, u: nat)
    requires k * u == 256 && u > 0
    ensures (256 * v + b) / u == v * k + b / u && b / u < k
  {
    var q, r := b / u, b % u;
    assert b == q * u + r && r < u;
    ByteProduct(v, q, k, u);
    DivUnique(256 * v + b, u, v * k + q, r);
    if q >= k {
      MulAtLeast(q + 1, k, u);
    }
  }

  lemma ByteProduct(v: nat, q: nat, k: nat, u: nat)
    requires k * u == 256
    ensures (v * k + q) * u == 256 * v + q * u
  {
    assert (v * k + q) * u == (v * k) * u + q * u;
    assert (v * k) * u == v * (k * u);
  }

  lemma InNetworkSplit(a: seq<Octet>, b: seq<Octet>, prefix: nat)
    requires |a| == |b| && a != []
    ensures var n := |a| - 1;
            InNetwork(a, prefix, b) <==>
            InNetwork(a[..n], prefix, b[..n]) && NetworkPart(b[n], prefix, n) == NetworkPart(a[n], prefix, n)
  {
    var n := |a| - 1;
    assert forall i :: 0 <= i < n ==> a[..n][i] == a[i] && b[..n][i] == b[i];
  }

  lemma {:induction false} PrefixesAgree(a: seq<Octet>, b: seq<Octet>, prefix: nat)
    requires |a| == |b| && prefix <= 8 * |a|
    ensures InNetwork(a, prefix, b) <==> Value(b) / Pow2(8 * |a| - prefix) == Value(a) / Pow2(8 * |a| - prefix)
  {
    if a != [] {
      var n, host := |a| - 1, 8 * |a| - prefix;
      InNetworkSplit(a, b, prefix);
      if host >= 8 {
        PrefixesAgree(a[..n], b[..n], prefix);
        DropByte(Value(a[..n]), a[n], host);
        DropByte(Value(b[..n]), b[n], host);
        FreeByte(a[n], prefix, n);
        FreeByte(b[n], prefix, n);
      } else {
        WholeBytes(a[..n], b[..n], prefix);
        SplitByte(Value(b[..n]), b[n], Value(a[..n]), a[n], host);
        assert KeptBits(prefix, n) == 8 - host;
        if Value(a[..n]) == Value(b[..n]) {
          ValueInjective(a[..n], b[..n]);
        }
      }
    }
  }

  /** A byte behind the prefix has no network part. */
  lemma FreeByte(b: Octet, prefix: nat, i: nat)
    requires prefix <= 8 * i
    ensures NetworkPart(b, prefix, i) == 0
  {
  }

  /** A prefix that covers all bytes fixes them. */
  lemma WholeBytes(a: seq<Octet>, b: seq<Octet>, prefix: nat)
    requires |a| == |b| && prefix >= 8 * |a|
    ensures InNetwork(a, prefix, b) <==> a == b
  {
    forall i | 0 <= i < |a|
      ensures NetworkPart(b[i], prefix, i) == b[i] && NetworkPart(a[i], prefix, i) == a[i]
    {
      assert KeptBits(prefix, i) == 8;
    }
  }

  /** Two addresses are in the same network if and only if the numbers they denote agree
      but for the lowest 8 * length - prefix bits. */
  lemma InNetworkExactly(network: seq<Octet>, prefix: nat, ip: seq<Octet>)
    requires prefix <= 8 * |network|
    ensures InNetwork(network, prefix, ip) <==>
            |ip| == |network| &&
            Value(ip) / Pow2(8 * |network| - prefix) == Value(network) / Pow2(8 * |network| - prefix)
  {
    if |ip| == |network| {
      PrefixesAgree(network, ip, prefix);
    }
  }

  /** The first service address lies in the network exactly when the prefix
      leaves at least one host bit. */
  lemma FirstAddressInRange(network: seq<Octet>, prefix: nat)
    requires network != [] && prefix <= 8 * |network| && Masked(network, prefix)
    ensures InNetwork(network, prefix, Successor(network)) <==> prefix < 8 * |network|
  {
    var n := |network| - 1;
    var first := Successor(network);
    LastByte(network[n], prefix, n);
    if prefix < 8 * |network| {
      assert first == network[..n] + [network[n] + 1];
      forall i | 0 <= i < |network|
        ensures NetworkPart(first[i], prefix, i) == NetworkPart(network[i], prefix, i)
      {
        if i < n {
          assert first[i] == network[i];
        }
      }
    } else {
      assert first[n] != network[n];
    }
  }

  /** A byte whose host part is zero can be incremented without a carry, and
      stays in the network, exactly when it has a host bit. */
  lemma LastByte(b: Octet, prefix: nat, i: nat)
    requires HostPart(b, prefix, i) == 0
    ensures prefix < 8 * (i + 1) ==> b < 255 && NetworkPart(b + 1, prefix, i) == NetworkPart(b, prefix, i)
    ensures prefix >= 8 * (i + 1) ==> forall c: Octet :: NetworkPart(c, prefix, i) == c
  {
    var kept := KeptBits(prefix, i);
    if kept == 0 {
    } else if kept == 1 {
    } else if kept == 2 {
    } else if kept == 3 {
    } else if kept == 4 {
    } else if kept == 5 {
    } else if kept == 6 {
    } else if kept == 7 {
    }
  }

  /** kas/certs.go firstIP: the successor of the network address, which for a masked
      network lies in it exactly when there is a host bit. */
  method FirstIP(network: array<Octet>, prefix: nat) returns (first: array<Octet>)
    ensures fresh(first)
    ensures first[..] == Successor(network[..])
    ensures network.Length > 0 && prefix <= 8 * network.Length && Masked(network[..], prefix) ==>
              (InNetwork(network[..], prefix, first[..]) <==> prefix < 8 * network.Length)
  {
    first := NextIP(network);
    if network.Length > 0 && prefix <= 8 * network.Length && Masked(network[..], prefix) {
      FirstAddressInRange(network[..], prefix);
    }
  }
}
