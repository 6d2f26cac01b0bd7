/** The addresses of a network: which ones the generator sends, and how many. */
module Addresses {
  import opened Bytes
  import opened Outcomes

  // ---- operators of an n-bit machine word ----

  function And(a: nat, b: nat, n: nat): nat {
    if n == 0 then 0 else (if a % 2 == 1 && b % 2 == 1 then 1 else 0) + 2 * And(a / 2, b / 2, n - 1)
  }

  function Xor(a: nat, b: nat, n: nat): nat {
    if n == 0 then 0 else (if a % 2 != b % 2 then 1 else 0) + 2 * Xor(a / 2, b / 2, n - 1)
  }

  function Not(a: nat, n: nat): nat {
    if n == 0 then 0 else 1 - a % 2 + 2 * Not(a / 2, n - 1)
  }

  /** `bits.OnesCount32`. */
  function Ones(a: nat, n: nat): (r: nat)
    ensures r <= n
  {
    if n == 0 then 0 else a % 2 + Ones(a / 2, n - 1)
  }

  // ---- the addresses that agree with a network on its mask ----

  function Extended(rest: seq<nat>, bit: nat): (r: seq<nat>)
    requires bit < 2
    ensures |r| == |rest| && forall i :: 0 <= i < |r| ==> r[i] == 2 * rest[i] + bit
  {
    seq(|rest|, i requires 0 <= i < |rest| => 2 * rest[i] + bit)
  }

  function Doubled(rest: seq<nat>): (r: seq<nat>)
    ensures |r| == 2 * |rest| && forall i :: 0 <= i < |r| ==> r[i] == 2 * rest[i / 2] + i % 2
  {
    seq(2 * |rest|, i requires 0 <= i < 2 * |rest| => 2 * rest[i / 2] + i % 2)
  }

  /** All `n`-bit addresses that agree with `net` on `mask`, in order: bit by bit, a masked
      bit is the network's and any other takes both values. */
  function Matching(net: nat, mask: nat, n: nat): (r: seq<nat>)
    ensures r != []
  {
    if n == 0 then [0]
    else
      var rest := Matching(net / 2, mask / 2, n - 1);
      if mask % 2 == 1 then Extended(rest, net % 2) else Doubled(rest)
  }

  lemma {:induction false} MatchingCount(net: nat, mask: nat, n: nat)
    ensures |Matching(net, mask, n)| == Pow2(n - Ones(mask, n))
  {
    if n == 0 {
    } else {
      MatchingCount(net / 2, mask / 2, n - 1);
    }
  }

  predicate Ascending(s: seq<nat>) {
    forall i, j :: 0 <= i < j < |s| ==> s[i] < s[j]
  }

  lemma {:induction false} MatchingAscends(net: nat, mask: nat, n: nat)
    ensures Ascending(Matching(net, mask, n))
    ensures forall i :: 0 <= i < |Matching(net, mask, n)| ==> Matching(net, mask, n)[i] < Pow2(n)
  {
    if n == 0 {
    } else {
      MatchingAscends(net / 2, mask / 2, n - 1);
      var rest, all := Matching(net / 2, mask / 2, n - 1), Matching(net, mask, n);
      forall i, j | 0 <= i < j < |all|
        ensures all[i] < all[j]
      {
        if mask % 2 == 0 && i / 2 < j / 2 {
          assert rest[i / 2] < rest[j / 2];
        }
      }
    }
  }

  lemma HalfFits(a: nat, n: nat)
    requires n > 0
    ensures a < Pow2(n) <==> a / 2 < Pow2(n - 1)
  {}

  lemma NoBitsMatch(net: nat, mask: nat, a: nat)
    ensures a in Matching(net, mask, 0) <==> a < Pow2(0) && And(a, mask, 0) == And(net, mask, 0)
  {}

  /** The list has exactly the agreeing addresses. */
  lemma {:induction false} MatchingIsExact(net: nat, mask: nat, n: nat, a: nat)
    ensures a in Matching(net, mask, n) <==> a < Pow2(n) && And(a, mask, n) == And(net, mask, n)
  {
    hide *;
    if n == 0 {
      NoBitsMatch(net, mask, a);
    } else {
      MatchingIsExact(net / 2, mask / 2, n - 1, a / 2);
      BitsAgree(net, mask, n, a);
      HalfFits(a, n);
      LastBit(net, mask, n, a);
    }
  }

  lemma LastBit(net: nat, mask: nat, n: nat, a: nat)
    requires n > 0
    ensures a in Matching(net, mask, n)
            <==> a / 2 in Matching(net / 2, mask / 2, n - 1) && (mask % 2 == 1 ==> a % 2 == net % 2)
  {
    MatchingUnfolds(net, mask, n);
    hide *;
    var rest := Matching(net / 2, mask / 2, n - 1);
    InExtended(rest, net % 2, a);
    InDoubled(rest, a);
  }

  lemma MatchingUnfolds(net: nat, mask: nat, n: nat)
    requires n > 0
    ensures var rest := Matching(net / 2, mask / 2, n - 1);
            Matching(net, mask, n) == if mask % 2 == 1 then Extended(rest, net % 2) else Doubled(rest)
  {}

  lemma InExtended(rest: seq<nat>, bit: nat, a: nat)
    requires bit < 2
    ensures a in Extended(rest, bit) <==> a / 2 in rest && a % 2 == bit
  {
    hide Extended;
    var all := Extended(rest, bit);
    if a in all {
      var i :| 0 <= i < |all| && all[i] == a;
      assert rest[i] == a / 2;
    }
    if a / 2 in rest && a % 2 == bit {
      var i :| 0 <= i < |rest| && rest[i] == a / 2;
      assert all[i] == a;
    }
  }

  lemma InDoubled(rest: seq<nat>, a: nat)
    ensures a in Doubled(rest) <==> a / 2 in rest
  {
    hide Doubled;
    var all := Doubled(rest);
    if a in all {
      var i :| 0 <= i < |all| && all[i] == a;
      assert rest[i / 2] == a / 2;
    }
    if a / 2 in rest {
      var i :| 0 <= i < |rest| && rest[i] == a / 2;
      assert all[2 * i + a % 2] == a;
    }
  }

  lemma BitsAgree(net: nat, mask: nat, n: nat, a: nat)
    requires n > 0
    ensures And(a, mask, n) == And(net, mask, n)
            <==> And(a / 2, mask / 2, n - 1) == And(net / 2, mask / 2, n - 1) && (mask % 2 == 1 ==> a % 2 == net % 2)
  {}

  lemma BroadcastBits(net: nat, mask: nat, n: nat)
    requires n > 0
    ensures Xor(And(net, mask, n), Not(mask, n), n)
            == (if mask % 2 == 1 then net % 2 else 1)
               + 2 * Xor(And(net / 2, mask / 2, n - 1), Not(mask / 2, n - 1), n - 1)
  {
    var x, y := And(net, mask, n), Not(mask, n);
    assert x / 2 == And(net / 2, mask / 2, n - 1) && y / 2 == Not(mask / 2, n - 1);
  }

  lemma OuterEnds(net: nat, mask: nat, n: nat)
    requires n > 0
    ensures var rest, all := Matching(net / 2, mask / 2, n - 1), Matching(net, mask, n);
            && all[0] == 2 * rest[0] + (if mask % 2 == 1 then net % 2 else 0)
            && all[|all| - 1] == 2 * rest[|rest| - 1] + (if mask % 2 == 1 then net % 2 else 1)
  {
    hide *;
    MatchingUnfolds(net, mask, n);
    var rest := Matching(net / 2, mask / 2, n - 1);
    ExtendedEnds(rest, net % 2);
    DoubledEnds(rest);
  }

  lemma ExtendedEnds(rest: seq<nat>, bit: nat)
    requires rest != [] && bit < 2
    ensures var all := Extended(rest, bit);
            && |all| == |rest|
            && all[0] == 2 * rest[0] + bit && all[|all| - 1] == 2 * rest[|rest| - 1] + bit
  {}

  lemma DoubledEnds(rest: seq<nat>)
    requires rest != []
    ensures var all := Doubled(rest);
            && |all| == 2 * |rest|
            && all[0] == 2 * rest[0] && all[|all| - 1] == 2 * rest[|rest| - 1] + 1
  {
    assert (2 * |rest| - 1) / 2 == |rest| - 1;
  }

  lemma AndStep(net: nat, mask: nat, n: nat)
    requires n > 0
    ensures And(net, mask, n) == (if mask % 2 == 1 then net % 2 else 0) + 2 * And(net / 2, mask / 2, n - 1)
  {}

  lemma NoBitsEnds(net: nat, mask: nat)
    ensures Matching(net, mask, 0) == [0] && And(net, mask, 0) == 0 && Xor(0, Not(mask, 0), 0) == 0
  {}

  /** The first is the network id, the last the broadcast address. */
  lemma {:induction false} MatchingEnds(net: nat, mask: nat, n: nat)
    ensures var all := Matching(net, mask, n);
            all[0] == And(net, mask, n) && all[|all| - 1] == Xor(And(net, mask, n), Not(mask, n), n)
  {
    hide And, Xor, Not, Matching;
    if n == 0 {
      NoBitsEnds(net, mask);
    } else {
      MatchingEnds(net / 2, mask / 2, n - 1);
      OuterEnds(net, mask, n);
      AndStep(net, mask, n);
      BroadcastBits(net, mask, n);
    }
  }

  // ---- the number of probes ----

  const ALL_ONES := 0xFFFF_FFFF

  /** `computeNetSz`: `^uint32(0)>>subnetSz - 1`, or one for the smallest networks. */
  function ComputeNetSz(subnetSz: nat): int {
    if subnetSz >= 31 then 1 else Shr(ALL_ONES, subnetSz) - 1
  }

  lemma {:induction false} ShiftedOnes(k: nat, n: nat)
    requires k <= n
    ensures Shr(Pow2(n) - 1, k) == Pow2(n - k) - 1
  {
    if k == 0 {
    } else {
      assert (Pow2(n) - 1) / 2 == Pow2(n - 1) - 1;
      ShiftedOnes(k - 1, n - 1);
    }
  }

  lemma Pow2Of32()
    ensures Pow2(32) == 0x1_0000_0000
  {
    assert Pow2(8) == 256;
    hide Pow2;
    PowerSum(16, 16);
    PowerSum(8, 8);
  }

  lemma {:induction false} PowerSum(a: nat, b: nat)
    ensures Pow2(a + b) == Pow2(a) * Pow2(b)
  {
    if a == 0 {
    } else {
      PowerSum(a - 1, b);
    }
  }

  // ---- the generator ----

  datatype IpNet = IpNet(ip: seq<Byte>, mask: seq<Byte>)

  /** `IP.To4`. */
  function To4(ip: seq<Byte>): (r: Option<seq<Byte>>)
    ensures r.Some? ==> |r.value| == 4
  {
    if |ip| == 4 then Some(ip)
    else if |ip| == 16 && (forall i :: 0 <= i < 10 ==> ip[i] == 0) && ip[10] == 0xFF && ip[11] == 0xFF then
      Some(ip[12..])
    else None
  }

  function Mask4(mask: seq<Byte>): (r: Option<seq<Byte>>)
    ensures r.Some? ==> |r.value| == 4
  {
    if |mask| == 16 then Some(mask[12..]) else if |mask| == 4 then Some(mask) else None
  }

  /** What the generator sends if nothing cancels it. */
  function Addresses4(inet: IpNet): seq<nat> {
    var addr, mask := To4(inet.ip), Mask4(inet.mask);
    if addr.None? || mask.None? then []
    else
      var umask := FromBigEndian(mask.value);
      var ones := Ones(umask, 32);
      if ones <= 1 then []
      else if ones >= 31 then [FromBigEndian(inet.ip[..4])]
      else
        var all := Matching(FromBigEndian(addr.value), umask, 32);
        all[1..if |all| > 1 then |all| - 1 else 1]
  }

  /** `ipGenerator`; `cancelAfter` is the number of addresses after which the context is
      found cancelled. */
  method IpGenerator(inet: IpNet, cancelAfter: Option<nat>) returns (sent: seq<nat>)
    ensures sent <= Addresses4(inet)
    ensures cancelAfter == None || cancelAfter.value >= |Addresses4(inet)| ==> sent == Addresses4(inet)
  {
    hide And, Xor, Not, Matching, FromBigEndian, Ones;
    sent := [];
    var addr, mask := To4(inet.ip), Mask4(inet.mask);
    if addr.None? || mask.None? {
      return;
    }
    var umask := FromBigEndian(mask.value);
    var maskSz := Ones(umask, 32);
    if maskSz <= 1 {
      return;
    } else if maskSz >= 31 {
      return [FromBigEndian(inet.ip[..4])];
    }
    var netId := And(FromBigEndian(addr.value), umask, 32);
    var bcast := Xor(netId, Not(umask, 32), 32);
    ghost var all := Matching(FromBigEndian(addr.value), umask, 32);
    ManyMatch(FromBigEndian(addr.value), umask, maskSz);
    ghost var i := 1;
    var ip := netId + 1;
    while ip < bcast
      invariant 1 <= i < |all| && all[i - 1] < ip <= all[i]
      invariant sent == all[1..i]
      invariant ip <= ALL_ONES
      decreases bcast - ip
    {
      Same(FromBigEndian(addr.value), umask, ip);
      if And(netId, umask, 32) == And(ip, umask, 32) {
        if cancelAfter == Some(|sent|) {
          return;
        }
        assert ip == all[i] by {
          var j :| 0 <= j < |all| && all[j] == ip;
        }
        sent := sent + [ip];
        i := i + 1;
      }
      ip := ip + 1;
    }
  }

  lemma ManyMatch(net: nat, mask: nat, ones: nat)
    requires ones == Ones(mask, 32) && 2 <= ones <= 30
    ensures var all := Matching(net, mask, 32);
            && |all| >= 4 && Ascending(all) && all[|all| - 1] <= ALL_ONES
            && all[0] == And(net, mask, 32) && all[|all| - 1] == Xor(And(net, mask, 32), Not(mask, 32), 32)
  {
    hide Matching, And, Xor, Not, Ones;
    MatchingCount(net, mask, 32);
    MatchingAscends(net, mask, 32);
    MatchingEnds(net, mask, 32);
    Pow2Grows(2, 32 - ones);
    Pow2Of32();
  }

  /** The loop's test, which masks the network id again, finds exactly the listed ones. */
  lemma Same(net: nat, mask: nat, ip: nat)
    requires ip <= ALL_ONES
    ensures And(And(net, mask, 32), mask, 32) == And(ip, mask, 32) <==> ip in Matching(net, mask, 32)
  {
    hide And, Matching;
    MaskTwice(net, mask, 32);
    Pow2Of32();
    MatchingIsExact(net, mask, 32, ip);
  }

  lemma {:induction false} MaskTwice(a: nat, mask: nat, n: nat)
    ensures And(And(a, mask, n), mask, n) == And(a, mask, n)
  {
    if n == 0 {
    } else {
      MaskTwice(a / 2, mask / 2, n - 1);
      assert And(a, mask, n) / 2 == And(a / 2, mask / 2, n - 1);
    }
  }

  // ---- what is sent ----

  /** For a mask of 2 to 30 ones, contiguous or not: exactly the addresses that agree with
      the network on the mask, except the network id and the broadcast address, ascending
      and each once. */
  lemma SendsTheNetwork(inet: IpNet, a: nat)
    requires To4(inet.ip).Some? && Mask4(inet.mask).Some?
    requires 2 <= Ones(FromBigEndian(Mask4(inet.mask).value), 32) <= 30
    ensures var net, mask := FromBigEndian(To4(inet.ip).value), FromBigEndian(Mask4(inet.mask).value);
            var netId := And(net, mask, 32);
            var bcast := Xor(netId, Not(mask, 32), 32);
            && Ascending(Addresses4(inet))
            && (a in Addresses4(inet) <==> a <= ALL_ONES && And(a, mask, 32) == netId && a != netId && a != bcast)
  {
    hide And, Xor, Not, Matching, FromBigEndian, Ones;
    var net, mask := FromBigEndian(To4(inet.ip).value), FromBigEndian(Mask4(inet.mask).value);
    ManyMatch(net, mask, Ones(mask, 32));
    MatchingIsExact(net, mask, 32, a);
    Pow2Of32();
    var all := Matching(net, mask, 32);
    var sent := all[1..|all| - 1];
    assert Addresses4(inet) == sent;
    assert forall i :: 0 <= i < |sent| ==> sent[i] == all[i + 1];
    if a in all {
      var i :| 0 <= i < |all| && all[i] == a;
      if 0 < i < |all| - 1 {
        assert sent[i - 1] == a;
      }
    }
  }

  /** Addresses of four bytes, or of sixteen that begin with ten zeros and two bytes of ones,
      and masks of four or sixteen bytes, are taken by their last four; nothing is sent for any
      other. */
  lemma LastFourBytes(inet: IpNet)
    ensures To4(inet.ip).Some? <==>
              |inet.ip| == 4 || (|inet.ip| == 16 && inet.ip[..12] == [0, 0, 0, 0, 0, 0, 0, 0, 0, 0, 255, 255])
    ensures To4(inet.ip).Some? ==> To4(inet.ip).value == inet.ip[|inet.ip| - 4..]
    ensures Mask4(inet.mask).Some? <==> |inet.mask| == 4 || |inet.mask| == 16
    ensures Mask4(inet.mask).Some? ==> Mask4(inet.mask).value == inet.mask[|inet.mask| - 4..]
    ensures To4(inet.ip).None? || Mask4(inet.mask).None? ==> Addresses4(inet) == []
  {
    hide Matching, FromBigEndian, Ones;
    if |inet.ip| == 16 {
      var prefix: seq<Byte> := [0, 0, 0, 0, 0, 0, 0, 0, 0, 0, 255, 255];
      assert forall i :: 0 <= i < 12 ==> inet.ip[..12][i] == inet.ip[i];
      assert (forall i :: 0 <= i < 10 ==> inet.ip[i] == 0) && inet.ip[10] == 0xFF && inet.ip[11] == 0xFF
             ==> inet.ip[..12] == prefix;
      assert inet.ip[..12] == prefix ==> forall i :: 0 <= i < 10 ==> inet.ip[i] == prefix[i];
    }
  }

  /** At the ends: a mask of at most one bit sends nothing. One of 31 or 32 sends the network's
      address, whatever the 31st bit leaves open, but reads it from the first four bytes even
      of a 16-byte form, where the address is the last four. */
  lemma EdgeNetworks(inet: IpNet)
    requires To4(inet.ip).Some? && Mask4(inet.mask).Some?
    ensures var addr, ones := To4(inet.ip).value, Ones(FromBigEndian(Mask4(inet.mask).value), 32);
            var address := U32At(addr, 0);
            && (ones <= 1 ==> Addresses4(inet) == [])
            && (ones >= 31 ==>
                  && |Addresses4(inet)| == 1
                  && (Addresses4(inet)[0] == address <==> |inet.ip| == 4 || address == 0))
  {
    hide Ones, Matching, FromBigEndian;
    FourBytesRead(inet.ip[..4]);
    if |inet.ip| == 4 {
      assert inet.ip[..4] == inet.ip;
    }
  }

  /** The estimate of the number of probes is what is sent, exactly for masks of at least
      two ones: shorter ones are skipped but counted. */
  lemma EstimateIsExact(inet: IpNet)
    requires To4(inet.ip).Some? && Mask4(inet.mask).Some?
    ensures var ones := Ones(FromBigEndian(Mask4(inet.mask).value), 32);
            && (2 <= ones <= 30 ==> |Addresses4(inet)| == Pow2(32 - ones) - 2)
            && (|Addresses4(inet)| == ComputeNetSz(ones) <==> ones >= 2)
  {
    hide FromBigEndian, Ones, Shr, Pow2, Matching, ComputeNetSz;
    var ones := Ones(FromBigEndian(Mask4(inet.mask).value), 32);
    NetworkSize(ones);
    if 2 <= ones <= 30 {
      SentCount(inet, ones);
    }
  }

  lemma NetworkSize(ones: nat)
    ensures ComputeNetSz(ones) > 0
    ensures ones <= 30 ==> ComputeNetSz(ones) == Pow2(32 - ones) - 2
    ensures ones > 30 ==> ComputeNetSz(ones) == 1
  {
    hide Shr;
    if ones <= 30 {
      Pow2Of32();
      ShiftedOnes(ones, 32);
      Pow2Grows(2, 32 - ones);
    }
  }

  lemma SentCount(inet: IpNet, ones: nat)
    requires To4(inet.ip).Some? && Mask4(inet.mask).Some?
    requires ones == Ones(FromBigEndian(Mask4(inet.mask).value), 32) && 2 <= ones <= 30
    ensures |Addresses4(inet)| == Pow2(32 - ones) - 2
  {
    hide And, Xor, Not, Matching, FromBigEndian, Ones, Pow2;
    var net, mask := FromBigEndian(To4(inet.ip).value), FromBigEndian(Mask4(inet.mask).value);
    ManyMatch(net, mask, ones);
    MatchingCount(net, mask, 32);
  }
}
