/** Prefixed integers, section 5.1 of RFC 7541 (src/transport/qpack.rs). */
module PrefixedInt {
  import opened Common
  import opened Arithmetic
  import opened Buffers

  datatype IntError = Truncated | Overflow

  /** The size of the first octet's prefix: its values below the last are whole integers. */
  type Prefix = n: nat | 1 <= n <= 8 witness 1

  function Size(prefix: Prefix): (s: nat)
    ensures 2 <= s <= 256
  {
    if prefix == 1 then 2 else if prefix == 2 then 4 else if prefix == 3 then 8 else if prefix == 4 then 16
    else if prefix == 5 then 32 else if prefix == 6 then 64 else if prefix == 7 then 128 else 256
  }

  /** What an octet may hold besides its prefix. */
  predicate IsFlags(flags: nat, prefix: Prefix) {
    flags % Size(prefix) == 0 && flags < 256
  }

  function Pow128(n: nat): (p: nat)
    ensures p > 0
  {
    if n == 0 then 1 else 128 * Pow128(n - 1)
  }

  // ----- an integer on the wire -----

  /** How an integer may be written: inside the prefix, or continued in groups of seven bits, lowest
      first, of which there may be more than are needed. */
  datatype IntRep = Short(value: nat) | Long(groups: seq<nat>)

  predicate SoundGroups(groups: seq<nat>) {
    1 <= |groups| && forall i :: 0 <= i < |groups| ==> groups[i] < 128
  }

  predicate SoundInt(rep: IntRep, prefix: Prefix) {
    match rep
    case Short(value) => value < Size(prefix) - 1
    case Long(groups) => SoundGroups(groups) && |groups| <= 9
  }

  function GroupsValue(groups: seq<nat>): nat {
    if groups == [] then 0 else groups[0] + 128 * GroupsValue(groups[1..])
  }

  function IntValue(rep: IntRep, prefix: Prefix): nat {
    match rep
    case Short(value) => value
    case Long(groups) => Size(prefix) - 1 + GroupsValue(groups)
  }

  function GroupsBytes(groups: seq<nat>): (b: bytes)
    requires SoundGroups(groups)
    ensures |b| == |groups|
  {
    if |groups| == 1 then [groups[0]]
    else [128 + groups[0]] + GroupsBytes(groups[1..])
  }

  function IntBytes(rep: IntRep, prefix: Prefix, flags: nat): (b: bytes)
    requires SoundInt(rep, prefix) && IsFlags(flags, prefix)
    ensures |b| >= 1
  {
    FlagsLeaveRoom(flags, prefix, 0);
    match rep
    case Short(value) => [flags + value]
    case Long(groups) => [flags + Size(prefix) - 1] + GroupsBytes(groups)
  }

  /** A value inside the prefix and the flags above it share an octet without touching. */
  lemma FlagsLeaveRoom(flags: nat, prefix: Prefix, v: nat)
    requires IsFlags(flags, prefix) && v < Size(prefix)
    ensures LeavesRoom(flags, Size(prefix), v)
  {
    hide Size;
    var size, above, whole := Size(prefix), flags / Size(prefix), Sizes(prefix);
    DivMod(flags, size);
    DivUnique(above, size, v);
    ModUnique(above, size, v);
    assert (whole - above) * size == whole * size - above * size;
    if above >= whole {
      Apart(above - whole + 1, size);
    } else {
      Apart(whole - above, size);
    }
  }

  /** How many sizes make an octet. */
  function Sizes(prefix: Prefix): (n: nat)
    ensures n * Size(prefix) == 256
  {
    if prefix == 1 then 128 else if prefix == 2 then 64 else if prefix == 3 then 32 else if prefix == 4 then 16
    else if prefix == 5 then 8 else if prefix == 6 then 4 else if prefix == 7 then 2 else 1
  }

  predicate LeavesRoom(flags: nat, size: nat, v: nat)
    requires size > 0
  {
    flags + size <= 256 && (flags + v) % size == v && (flags + v) / size == flags / size
  }

  // ----- writing -----

  /** The fewest groups a number takes. */
  function GroupsOf(rest: nat): (groups: seq<nat>)
    ensures SoundGroups(groups)
  {
    if rest >= 128 then [rest % 128] + GroupsOf(rest / 128) else [rest]
  }

  function IntRepOf(value: nat, prefix: Prefix): IntRep {
    if value < Size(prefix) - 1 then Short(value) else Long(GroupsOf(value - (Size(prefix) - 1)))
  }

  /** What `put_int` writes, for any value a 64-bit integer holds. */
  function PutBytes(value: nat, prefix: Prefix, flags: nat): bytes
    requires IsFlags(flags, prefix)
  {
    FlagsLeaveRoom(flags, prefix, 0);
    if value < Size(prefix) - 1 then [flags + value]
    else [flags + Size(prefix) - 1] + GroupsBytes(GroupsOf(value - (Size(prefix) - 1)))
  }

  method PutInt(out: Buffer, prefix: Prefix, flags: nat, value: nat)
    requires IsFlags(flags, prefix)
    modifies out
    ensures out.data == old(out.data) + PutBytes(value, prefix, flags)
  {
    hide Size, IsFlags, GroupsBytes, GroupsOf;
    FlagsLeaveRoom(flags, prefix, 0);
    var max := Size(prefix) - 1;
    if value < max {
      out.Put([flags + value]);
      return;
    }
    out.Put([flags + max]);
    var rest: nat := value - max;
    while rest >= 128
      invariant out.data + GroupsBytes(GroupsOf(rest)) == old(out.data) + PutBytes(value, prefix, flags)
    {
      FirstGroup(rest);
      ghost var before := out.data;
      out.Put([128 + rest % 128]);
      assert before + ([128 + rest % 128] + GroupsBytes(GroupsOf(rest / 128)))
          == out.data + GroupsBytes(GroupsOf(rest / 128));
      rest := rest / 128;
    }
    FirstGroup(rest);
    out.Put([rest]);
  }

  lemma FirstGroup(rest: nat)
    ensures rest < 128 ==> GroupsBytes(GroupsOf(rest)) == [rest]
    ensures rest >= 128 ==>
              GroupsBytes(GroupsOf(rest)) == [128 + rest % 128] + GroupsBytes(GroupsOf(rest / 128))
  {
    if rest >= 128 {
      assert GroupsOf(rest)[1..] == GroupsOf(rest / 128);
    }
  }

  // ----- reading -----

  /** Read the groups from the `k`-th on: their value, and how many octets they take. A tenth group is
      refused. */
  function ReadGroups(b: bytes, k: nat): (r: Result<(nat, nat), IntError>)
    ensures r.Ok? ==> 1 <= r.value.1 <= |b|
    decreases |b|
  {
    if b == [] then Err(Truncated)
    else if 7 * k > 56 then Err(Overflow)
    else if b[0] < 128 then Ok((b[0], 1))
    else
      match ReadGroups(b[1..], k + 1)
      case Ok(more) => Ok((b[0] - 128 + 128 * more.0, more.1 + 1))
      case Err(e) => Err(e)
  }

  function GetInt(b: bytes, prefix: Prefix): (r: Result<(nat, nat), IntError>)
    ensures r.Ok? ==> 1 <= r.value.1 <= |b|
  {
    if b == [] then Err(Truncated)
    else
      var low := b[0] % Size(prefix);
      if low < Size(prefix) - 1 then Ok((low, 1))
      else
        match ReadGroups(b[1..], 0)
        case Ok(more) => Ok((low + more.0, more.1 + 1))
        case Err(e) => Err(e)
  }

  /** The value and every step towards it fit sixty-four bits, also when the octets are refused. */
  method ReadInt(b: bytes, prefix: Prefix) returns (r: Result<(u64, nat), IntError>)
    ensures r == GetInt(b, prefix)
  {
    hide Size, Pow128, PartialSum;
    if |b| == 0 {
      return Err(Truncated);
    }
    var max: u64 := Size(prefix) - 1;
    var value: u64 := b[0] % Size(prefix);
    if value < max {
      return Ok((value, 1));
    }
    var position: nat, shift: nat, unit: u64 := 1, 0, 1;
    ghost var k: nat, whole := 0, ReadGroups(b[1..], 0);
    NothingRead(b[1..]);
    while position < |b|
      invariant 1 <= position <= |b| && k <= 9
      invariant shift == 7 * k && position == k + 1 && unit == Pow128(k)
      invariant value == max + PartialSum(b[1..], k)
      invariant Pending(whole, max, value, position - 1, unit, ReadGroups(b[position..], k))
    {
      if shift > 56 {
        return Err(Overflow);
      }
      var octet := b[position];
      assert b[position..][1..] == b[position + 1..] && b[1..][k] == octet;
      PendingStep(whole, max, value, position - 1, unit, octet, ReadGroups(b[position + 1..], k + 1));
      OneGroupMore(b[1..], k);
      PartialSumsFit(b, prefix, k + 1);
      var group: u64 := octet % 128 * unit;
      value := value + group;
      shift := shift + 7;
      unit := unit * 128;
      k := k + 1;
      position := position + 1;
      if octet < 128 {
        return Ok((value, position));
      }
    }
    return Err(Truncated);
  }

  /** The groups read so far, and those ahead, make the whole. */
  ghost predicate Pending(whole: Result<(nat, nat), IntError>, max: nat, value: nat, used: nat, unit: nat,
                          ahead: Result<(nat, nat), IntError>) {
    match ahead
    case Err(e) => whole == Err(e)
    case Ok(more) => whole.Ok? && max + whole.value.0 == value + unit * more.0 && whole.value.1 == used + more.1
  }

  lemma PendingStep(whole: Result<(nat, nat), IntError>, max: nat, value: nat, used: nat, unit: nat, octet: u8,
                    ahead: Result<(nat, nat), IntError>)
    requires octet < 128 ==> Pending(whole, max, value, used, unit, Ok((octet, 1)))
    requires octet >= 128 ==>
               Pending(whole, max, value, used, unit,
                       match ahead
                       case Ok(more) => Ok((octet - 128 + 128 * more.0, more.1 + 1))
                       case Err(e) => Err(e))
    ensures octet < 128 ==>
              whole.Ok? && max + whole.value.0 == value + octet % 128 * unit && whole.value.1 == used + 1
    ensures octet >= 128 ==> Pending(whole, max, value + octet % 128 * unit, used + 1, unit * 128, ahead)
  {
    if octet >= 128 && ahead.Ok? {
      Distribute(unit, octet - 128, ahead.value.0);
    }
  }

  lemma Distribute(unit: nat, low: nat, high: nat)
    ensures unit * (low + 128 * high) == low * unit + unit * 128 * high
  {
    assert unit * (low + 128 * high) == unit * low + unit * (128 * high);
    assert unit * (128 * high) == unit * 128 * high;
  }

  // ----- bounds -----

  lemma {:induction false} GroupsFit(b: bytes, k: nat)
    requires k <= 9
    ensures ReadGroups(b, k).Ok? ==> ReadGroups(b, k).value.0 < Pow128(9 - k)
    decreases |b|
  {
    if b != [] && k <= 8 {
      assert Pow128(9 - k) == 128 * Pow128(8 - k);
      GroupsFit(b[1..], k + 1);
    }
  }

  lemma NinePowers()
    ensures Pow128(9) == 0x8000_0000_0000_0000
  {
    assert Pow128(3) == 128 * Pow128(2);
    assert Pow128(6) == 128 * (128 * (128 * Pow128(3)));
    assert Pow128(9) == 128 * (128 * (128 * Pow128(6)));
  }

  /** What the first `n` groups of a run of octets add up to, whether or not the run ends there. */
  function PartialSum(b: bytes, n: nat): nat
    requires n <= |b|
  {
    if n == 0 then 0 else PartialSum(b, n - 1) + b[n - 1] % 128 * Pow128(n - 1)
  }

  lemma NothingRead(b: bytes)
    ensures PartialSum(b, 0) == 0 && Pow128(0) == 1
  {
  }

  lemma OneGroupMore(b: bytes, n: nat)
    requires n < |b|
    ensures PartialSum(b, n + 1) == PartialSum(b, n) + b[n] % 128 * Pow128(n)
    ensures Pow128(n + 1) == 128 * Pow128(n)
  {
  }

  lemma {:induction false} PartialSumBound(b: bytes, n: nat)
    requires n <= |b|
    ensures PartialSum(b, n) < Pow128(n)
  {
    if n > 0 {
      PartialSumBound(b, n - 1);
      Scale(b[n - 1] % 128, 127, Pow128(n - 1));
    }
  }

  lemma {:induction false} PowersRise(m: nat, n: nat)
    requires m <= n
    ensures Pow128(m) <= Pow128(n)
    decreases n
  {
    if m < n {
      PowersRise(m, n - 1);
    }
  }

  /** No sum of a reader overflows, on any octets: with the first octet's part, up to nine groups stay
      under 2^63 + 255, and so does the next group's place value. A tenth is never added. */
  lemma PartialSumsFit(b: bytes, prefix: Prefix, n: nat)
    requires n < |b| && n <= 9
    ensures Size(prefix) - 1 + PartialSum(b[1..], n) < 0x8000_0000_0000_0000 + 255
    ensures Pow128(n) <= 0x8000_0000_0000_0000
  {
    hide Pow128, PartialSum;
    NinePowers();
    PowersRise(n, 9);
    PartialSumBound(b[1..], n);
  }

  /** A number that is read is far below 64 bits. */
  lemma GetIntFits(b: bytes, prefix: Prefix)
    ensures GetInt(b, prefix).Ok? ==> GetInt(b, prefix).value.0 < 0x8000_0000_0000_0000 + 255
  {
    NinePowers();
    if b != [] {
      GroupsFit(b[1..], 0);
    }
  }

  // ----- what is read is what is written -----

  lemma {:induction false} ReadGroupsBytes(groups: seq<nat>, tail: bytes, k: nat)
    requires SoundGroups(groups)
    ensures ReadGroups(GroupsBytes(groups) + tail, k) ==
            if k + |groups| <= 9 then Ok((GroupsValue(groups), |groups|)) else Err(Overflow)
    decreases |groups|
  {
    var b := GroupsBytes(groups) + tail;
    if |groups| > 1 {
      assert b[1..] == GroupsBytes(groups[1..]) + tail;
      if k <= 8 {
        ReadGroupsBytes(groups[1..], tail, k + 1);
      }
    } else {
      assert GroupsValue(groups[1..]) == 0;
    }
  }

  lemma {:induction false} GroupsOfBytes(b: bytes, k: nat) returns (groups: seq<nat>)
    requires ReadGroups(b, k).Ok?
    ensures SoundGroups(groups) && k + |groups| <= 9
    ensures ReadGroups(b, k).value == (GroupsValue(groups), |groups|)
    ensures b[..|groups|] == GroupsBytes(groups)
    decreases |b|
  {
    if b[0] < 128 {
      groups := [b[0] as nat];
      assert GroupsValue(groups[1..]) == 0;
    } else {
      var more := GroupsOfBytes(b[1..], k + 1);
      groups := [b[0] - 128] + more;
      assert groups[1..] == more;
      assert b[..|groups|] == [b[0]] + b[1..][..|more|];
    }
  }

  /** Any sound way of writing an integer, with any flags above it, reads back as its value. */
  lemma ReadsBack(rep: IntRep, prefix: Prefix, flags: nat, tail: bytes)
    requires SoundInt(rep, prefix) && IsFlags(flags, prefix)
    ensures GetInt(IntBytes(rep, prefix, flags) + tail, prefix) ==
            Ok((IntValue(rep, prefix), |IntBytes(rep, prefix, flags)|))
    ensures (IntBytes(rep, prefix, flags) + tail)[0] / Size(prefix) == flags / Size(prefix)
  {
    hide Size, IsFlags, ReadGroups, GroupsBytes, GroupsValue;
    var low := match rep case Short(value) => value case Long(_) => Size(prefix) - 1;
    FlagsLeaveRoom(flags, prefix, low);
    var b := IntBytes(rep, prefix, flags) + tail;
    match rep
    case Short(value) =>
    case Long(groups) =>
      assert b[1..] == GroupsBytes(groups) + tail;
      ReadGroupsBytes(groups, tail, 0);
  }

  lemma LowCleared(octet: u8, prefix: Prefix)
    ensures IsFlags(octet - octet % Size(prefix), prefix)
  {
    hide Size;
    DivMod(octet, Size(prefix));
    ModUnique(octet / Size(prefix), Size(prefix), 0);
  }

  /** Whatever reads as an integer was a sound way of writing it, under the flags the first octet
      has. */
  lemma WhatWasRead(b: bytes, prefix: Prefix) returns (rep: IntRep, flags: nat)
    requires GetInt(b, prefix).Ok?
    ensures SoundInt(rep, prefix) && IsFlags(flags, prefix)
    ensures flags == b[0] - b[0] % Size(prefix)
    ensures GetInt(b, prefix).value == (IntValue(rep, prefix), |IntBytes(rep, prefix, flags)|)
    ensures b[..GetInt(b, prefix).value.1] == IntBytes(rep, prefix, flags)
  {
    flags := b[0] - b[0] % Size(prefix);
    LowCleared(b[0], prefix);
    FlagsLeaveRoom(flags, prefix, 0);
    var low := b[0] % Size(prefix);
    if low < Size(prefix) - 1 {
      rep := Short(low);
    } else {
      var groups := GroupsOfBytes(b[1..], 0);
      rep := Long(groups);
      assert b[..|groups| + 1] == [b[0]] + b[1..][..|groups|];
    }
  }

  lemma {:induction false} GroupsOfValue(rest: nat, n: nat)
    ensures GroupsValue(GroupsOf(rest)) == rest
    ensures rest < Pow128(n) && n > 0 ==> |GroupsOf(rest)| <= n
    ensures n > 0 && rest >= Pow128(n) ==> |GroupsOf(rest)| > n
    decreases rest
  {
    if rest >= 128 {
      assert GroupsOf(rest)[1..] == GroupsOf(rest / 128);
      GroupsOfValue(rest / 128, if n > 0 then n - 1 else 0);
      if n > 0 {
        assert Pow128(n) == 128 * Pow128(n - 1);
        if n == 1 {
          assert Pow128(0) == 1;
        }
      }
    } else {
      assert GroupsOf(rest)[1..] == [];
      if n > 0 {
        assert Pow128(n) == 128 * Pow128(n - 1);
      }
    }
  }

  /** An integer written by `put_int` reads back, for every prefix, exactly when what it exceeds the
      prefix by is under 2^63; a larger one is refused as an overflow. */
  lemma RoundTrip(value: nat, prefix: Prefix, flags: nat, tail: bytes)
    requires IsFlags(flags, prefix)
    ensures var b := PutBytes(value, prefix, flags);
            GetInt(b + tail, prefix) ==
            if value - (Size(prefix) - 1) < 0x8000_0000_0000_0000 then Ok((value, |b|)) else Err(Overflow)
  {
    hide ReadGroups, GroupsBytes, GroupsOf, Pow128, Size, IsFlags;
    NinePowers();
    FlagsLeaveRoom(flags, prefix, if value < Size(prefix) - 1 then value else Size(prefix) - 1);
    if value >= Size(prefix) - 1 {
      var rest := value - (Size(prefix) - 1);
      var groups := GroupsOf(rest);
      GroupsOfValue(rest, 9);
      ReadGroupsBytes(groups, tail, 0);
      assert (PutBytes(value, prefix, flags) + tail)[1..] == GroupsBytes(groups) + tail;
    }
  }

  /** The examples of Appendix C.1 of RFC 7541, written and read. */
  lemma TheExamplesOfTheStandard()
    ensures PutBytes(10, 5, 0) == [0x0a] && GetInt([0x0a], 5) == Ok((10, 1))
    ensures PutBytes(1_337, 5, 0) == [0x1f, 0x9a, 0x0a] && GetInt([0x1f, 0x9a, 0x0a], 5) == Ok((1_337, 3))
    ensures PutBytes(42, 8, 0) == [0x2a] && GetInt([0x2a], 8) == Ok((42, 1))
  {
    hide GroupsBytes, GroupsOf, GroupsValue;
    FirstGroup(1_306);
    FirstGroup(10);
    RoundTrip(10, 5, 0, []);
    RoundTrip(1_337, 5, 0, []);
    RoundTrip(42, 8, 0, []);
    assert [0x0a] + [] == [0x0a] && [0x2a] + [] == [0x2a] && [0x1f, 0x9a, 0x0a] + [] == [0x1f, 0x9a, 0x0a];
  }
}
