/** The downsample log: a task, its level and three nested lists of names, each prefixed with a 16-bit length. */
module Codec {
  import opened Records
  import Windows

  type Byte = x: int | 0 <= x < 256

  type Bytes = seq<Byte>

  const MAX_COUNT := 0x1_0000

  /** Unsigned 64-bit task, signed 64-bit level. */
  type Word = x: int | 0 <= x < 0x1_0000_0000_0000_0000
  type Signed = x: int | -0x8000_0000_0000_0000 <= x < 0x8000_0000_0000_0000

  datatype Info = Info(
    task: Word, level: Signed, names: seq<Bytes>, oldFiles: seq<seq<Bytes>>, newFiles: seq<seq<Bytes>>)

  /** Something read, and the bytes after it. */
  datatype Read<T> = Read(value: T, rest: Bytes)

  // ----- numbers, most significant byte first

  function Pow256(k: nat): nat {
    if k == 0 then 1 else 256 * Pow256(k - 1)
  }

  function PutNumber(n: nat, k: nat): (bs: Bytes)
    ensures |bs| == k
  {
    if k == 0 then [] else PutNumber(n / 256, k - 1) + [n % 256]
  }

  function GetNumber(bs: Bytes): nat {
    if bs == [] then 0 else GetNumber(bs[..|bs| - 1]) * 256 + bs[|bs| - 1]
  }

  lemma {:induction false} NumberRoundTrip(n: nat, k: nat)
    requires n < Pow256(k)
    ensures GetNumber(PutNumber(n, k)) == n
  {
    if k > 0 {
      assert n / 256 < Pow256(k - 1);
      NumberRoundTrip(n / 256, k - 1);
      assert PutNumber(n, k)[..k - 1] == PutNumber(n / 256, k - 1);
    }
  }

  lemma {:induction false} DivideTwice(n: nat, b: nat)
    requires b > 0
    ensures n / 256 / b == n / (256 * b)
  {
    var q, r := n / 256 / b, n / 256 % b;
    assert n / 256 == b * q + r;
    var rest := 256 * r + n % 256;
    assert 256 * (b * q) == 256 * b * q;
    assert n == 256 * b * q + rest && 0 <= rest < 256 * b;
    Windows.DivideWith(256 * b, q, rest);
  }

  /** The most significant byte stands first. */
  lemma {:induction false} NumberBytes(n: nat, k: nat, i: nat)
    requires i < k
    ensures Pow256(k - 1 - i) > 0 && PutNumber(n, k)[i] == n / Pow256(k - 1 - i) % 256
  {
    if i < k - 1 {
      NumberBytes(n / 256, k - 1, i);
      DivideTwice(n, Pow256(k - 2 - i));
    }
  }

  /** Reading loses nothing: the bytes can be told from the number. */
  lemma {:induction false} NumberBack(bs: Bytes)
    ensures PutNumber(GetNumber(bs), |bs|) == bs
  {
    if bs != [] {
      var n := |bs| - 1;
      NumberBack(bs[..n]);
      assert GetNumber(bs) / 256 == GetNumber(bs[..n]) && GetNumber(bs) % 256 == bs[n];
    }
  }

  lemma {:induction false} NumberBound(bs: Bytes)
    ensures GetNumber(bs) < Pow256(|bs|)
  {
    if bs != [] {
      NumberBound(bs[..|bs| - 1]);
    }
  }

  lemma {:induction false} Powers()
    ensures Pow256(2) == MAX_COUNT && Pow256(8) == 0x1_0000_0000_0000_0000
  {
    assert Pow256(1) == 256 && Pow256(2) == 0x1_0000 && Pow256(3) == 0x100_0000 && Pow256(4) == 0x1_0000_0000;
    assert Pow256(5) == 0x100_0000_0000 && Pow256(6) == 0x1_0000_0000_0000 && Pow256(7) == 0x100_0000_0000_0000;
  }

  /** Zig-zag: small levels of either sign become small numbers. */
  function ZigZag(v: Signed): Word {
    if v >= 0 then 2 * v else -2 * v - 1
  }

  function UnZigZag(u: Word): Signed {
    if u % 2 == 0 then u / 2 else -(u / 2) - 1
  }

  lemma {:induction false} ZigZagRoundTrip(v: Signed)
    ensures UnZigZag(ZigZag(v)) == v
  {
  }

  lemma {:induction false} ZigZagBack(u: Word)
    ensures ZigZag(UnZigZag(u)) == u
  {
  }

  /** In 64 bits it is the value shifted left, with all bits turned over if the value is negative. */
  lemma {:induction false} ZigZagIsShift(v: Signed)
    ensures
      var shifted := 2 * v % 0x1_0000_0000_0000_0000;
      ZigZag(v) == if v < 0 then 0xFFFF_FFFF_FFFF_FFFF - shifted else shifted
  {
  }

  function PutCount(n: nat): (bs: Bytes)
    ensures |bs| == 2
  {
    PutNumber(n % MAX_COUNT, 2)
  }

  function GetCount(src: Bytes): (n: nat)
    requires |src| >= 2
    ensures n < MAX_COUNT
  {
    Powers();
    NumberBound(src[..2]);
    GetNumber(src[..2])
  }

  /** A count survives exactly when it fits in 16 bits. */
  lemma {:induction false} CountRoundTrip(n: nat, tail: Bytes)
    ensures GetCount(PutCount(n) + tail) == n % MAX_COUNT
  {
    Powers();
    NumberRoundTrip(n % MAX_COUNT, 2);
    assert (PutCount(n) + tail)[..2] == PutCount(n);
  }

  lemma {:induction false} CountBack(src: Bytes)
    requires |src| >= 2
    ensures src == PutCount(GetCount(src)) + src[2..]
  {
    NumberBack(src[..2]);
    assert src == src[..2] + src[2..];
  }

  // ----- what is written

  function PutName(s: Bytes): Bytes {
    PutCount(|s|) + s
  }

  function PutNames(names: seq<Bytes>): Bytes {
    if names == [] then [] else PutName(names[0]) + PutNames(names[1..])
  }

  function PutGroup(names: seq<Bytes>): Bytes {
    PutCount(|names|) + PutNames(names)
  }

  function PutGroups(groups: seq<seq<Bytes>>): Bytes {
    if groups == [] then [] else PutGroup(groups[0]) + PutGroups(groups[1..])
  }

  function PutFiles(groups: seq<seq<Bytes>>): Bytes {
    PutCount(|groups|) + PutGroups(groups)
  }

  function Body(info: Info): Bytes {
    PutNumber(info.task, 8) + (PutNumber(ZigZag(info.level), 8)
      + (PutGroup(info.names) + (PutFiles(info.oldFiles) + PutFiles(info.newFiles))))
  }

  // ----- what is read

  function GetName(src: Bytes): Option<Read<Bytes>> {
    if |src| < 2 then None
    else
      var l, rest := GetCount(src), src[2..];
      if |rest| < l then None else Some(Read(rest[..l], rest[l..]))
  }

  function GetNames(src: Bytes, n: nat, names: seq<Bytes>): Option<Read<seq<Bytes>>>
    decreases n
  {
    if n == 0 then Some(Read(names, src))
    else
      match GetName(src)
      case None => None
      case Some(read) => GetNames(read.rest, n - 1, names + [read.value])
  }

  /** A counted list of names; at least one byte for each, and `slack` more, must be left. */
  function GetGroup(src: Bytes, slack: nat): Option<Read<seq<Bytes>>> {
    if |src| < 2 then None
    else
      var l, rest := GetCount(src), src[2..];
      if |rest| < l + slack then None else GetNames(rest, l, [])
  }

  function GetGroups(src: Bytes, n: nat, groups: seq<seq<Bytes>>): Option<Read<seq<seq<Bytes>>>>
    decreases n
  {
    if n == 0 then Some(Read(groups, src))
    else
      match GetGroup(src, 0)
      case None => None
      case Some(read) => GetGroups(read.rest, n - 1, groups + [read.value])
  }

  function GetFiles(src: Bytes): Option<Read<seq<seq<Bytes>>>> {
    if |src| < 2 then None else GetGroups(src[2..], GetCount(src), [])
  }

  function GetWord(src: Bytes): Word
    requires |src| >= 8
  {
    Powers();
    NumberBound(src[..8]);
    GetNumber(src[..8])
  }

  function Get(src: Bytes): Option<Read<Info>> {
    if |src| < 20 then None
    else
      var task, level := GetWord(src), UnZigZag(GetWord(src[8..]));
      match GetGroup(src[16..], 4)
      case None => None
      case Some(names) =>
        match GetFiles(names.rest)
        case None => None
        case Some(oldFiles) =>
          match GetFiles(oldFiles.rest)
          case None => None
          case Some(newFiles) =>
            Some(Read(Info(task, level, names.value, oldFiles.value, newFiles.value), newFiles.rest))
  }

  // ----- the round trip

  ghost predicate NamesFit(names: seq<Bytes>) {
    |names| < MAX_COUNT && forall k :: 0 <= k < |names| ==> |names[k]| < MAX_COUNT
  }

  ghost predicate FilesFit(groups: seq<seq<Bytes>>) {
    |groups| < MAX_COUNT && forall k :: 0 <= k < |groups| ==> NamesFit(groups[k])
  }

  /** Every count and every length fits in 16 bits. */
  ghost predicate Fits(info: Info) {
    NamesFit(info.names) && FilesFit(info.oldFiles) && FilesFit(info.newFiles)
  }

  lemma {:induction false} NameRoundTrip(s: Bytes, tail: Bytes)
    requires |s| < MAX_COUNT
    ensures GetName(PutName(s) + tail) == Some(Read(s, tail))
  {
    Associate(PutCount(|s|), s, tail);
    CountRoundTrip(|s|, s + tail);
    assert (PutCount(|s|) + (s + tail))[2..] == s + tail;
  }

  lemma {:induction false} NamesRoundTrip(names: seq<Bytes>, tail: Bytes, before: seq<Bytes>)
    requires forall k :: 0 <= k < |names| ==> |names[k]| < MAX_COUNT
    ensures GetNames(PutNames(names) + tail, |names|, before) == Some(Read(before + names, tail))
    decreases |names|
  {
    if names == [] {
      assert [] + tail == tail && before + [] == before;
    } else {
      var rest := names[1..];
      Associate(PutName(names[0]), PutNames(rest), tail);
      NameRoundTrip(names[0], PutNames(rest) + tail);
      NamesRoundTrip(rest, tail, before + [names[0]]);
      FirstAndRest(names, before);
    }
  }

  lemma {:induction false} FirstAndRest<T>(xs: seq<T>, before: seq<T>)
    requires xs != []
    ensures (before + [xs[0]]) + xs[1..] == before + xs
  {
  }

  lemma {:induction false} NamesLength(names: seq<Bytes>)
    ensures |PutNames(names)| >= 2 * |names|
  {
    if names != [] {
      NamesLength(names[1..]);
    }
  }

  /** A counted list is read as many times as its count says. */
  lemma {:induction false} Counted(n: nat, rest: Bytes)
    requires n < MAX_COUNT
    ensures
      var src := PutCount(n) + rest;
      && |src| == |rest| + 2 && GetCount(src) == n && src[2..] == rest
  {
    CountRoundTrip(n, rest);
  }

  lemma {:induction false} GroupIs(n: nat, rest: Bytes, slack: nat)
    requires n < MAX_COUNT && n + slack <= |rest|
    ensures GetGroup(PutCount(n) + rest, slack) == GetNames(rest, n, [])
  {
    Counted(n, rest);
  }

  lemma {:induction false} FilesIs(n: nat, rest: Bytes)
    requires n < MAX_COUNT
    ensures GetFiles(PutCount(n) + rest) == GetGroups(rest, n, [])
  {
    Counted(n, rest);
  }

  lemma {:induction false} GroupRoundTrip(names: seq<Bytes>, tail: Bytes, slack: nat)
    requires NamesFit(names) && slack <= |tail|
    ensures GetGroup(PutGroup(names) + tail, slack) == Some(Read(names, tail))
  {
    Associate(PutCount(|names|), PutNames(names), tail);
    NamesLength(names);
    GroupIs(|names|, PutNames(names) + tail, slack);
    NamesRoundTrip(names, tail, []);
    assert [] + names == names;
  }

  /** One group more. */
  lemma {:induction false} GroupsStep(src: Bytes, n: nat, group: seq<Bytes>, rest: Bytes, before: seq<seq<Bytes>>)
    requires n > 0 && GetGroup(src, 0) == Some(Read(group, rest))
    ensures GetGroups(src, n, before) == GetGroups(rest, n - 1, before + [group])
  {
  }

  lemma {:induction false} GroupsRoundTrip(groups: seq<seq<Bytes>>, tail: Bytes, before: seq<seq<Bytes>>)
    requires forall k :: 0 <= k < |groups| ==> NamesFit(groups[k])
    ensures GetGroups(PutGroups(groups) + tail, |groups|, before) == Some(Read(before + groups, tail))
    decreases |groups|
  {
    if groups == [] {
      assert [] + tail == tail && before + [] == before;
    } else {
      var rest := groups[1..];
      var after := PutGroups(rest) + tail;
      assert PutGroups(groups) + tail == PutGroup(groups[0]) + after by {
        Associate(PutGroup(groups[0]), PutGroups(rest), tail);
      }
      GroupRoundTrip(groups[0], after, 0);
      GroupsStep(PutGroup(groups[0]) + after, |groups|, groups[0], after, before);
      GroupsRoundTrip(rest, tail, before + [groups[0]]);
      FirstAndRest(groups, before);
    }
  }

  lemma {:induction false} FilesRoundTrip(groups: seq<seq<Bytes>>, tail: Bytes)
    requires FilesFit(groups)
    ensures GetFiles(PutFiles(groups) + tail) == Some(Read(groups, tail))
  {
    Associate(PutCount(|groups|), PutGroups(groups), tail);
    FilesIs(|groups|, PutGroups(groups) + tail);
    GroupsRoundTrip(groups, tail, []);
    assert [] + groups == groups;
  }

  lemma {:induction false} Parts(a: Bytes, b: Bytes)
    ensures (a + b)[..|a|] == a && (a + b)[|a|..] == b
  {
  }

  lemma {:induction false} WordRoundTrip(n: Word, tail: Bytes)
    ensures |PutNumber(n, 8) + tail| >= 8 && GetWord(PutNumber(n, 8) + tail) == n
    ensures (PutNumber(n, 8) + tail)[8..] == tail
  {
    Powers();
    NumberRoundTrip(n, 8);
    Parts(PutNumber(n, 8), tail);
  }

  /** The nested sums of the body, with what follows it moved inside. */
  lemma {:induction false} BodyWith(info: Info, tail: Bytes)
    ensures
      var names, oldFiles, newFiles := PutGroup(info.names), PutFiles(info.oldFiles), PutFiles(info.newFiles);
      Body(info) + tail
      == PutNumber(info.task, 8)
         + (PutNumber(ZigZag(info.level), 8) + (names + (oldFiles + (newFiles + tail))))
  {
    var a, b := PutNumber(info.task, 8), PutNumber(ZigZag(info.level), 8);
    var n, o, w := PutGroup(info.names), PutFiles(info.oldFiles), PutFiles(info.newFiles);
    Associate(o, w, tail);
    Associate(n, o + w, tail);
    Associate(b, n + (o + w), tail);
    Associate(a, b + (n + (o + w)), tail);
  }

  /** Reading what was written gives it back and leaves what follows it. */
  lemma {:induction false} RoundTrip(info: Info, tail: Bytes)
    requires Fits(info)
    ensures Get(Body(info) + tail) == Some(Read(info, tail))
  {
    var o, w := PutFiles(info.oldFiles), PutFiles(info.newFiles);
    var afterNames := o + (w + tail);
    var afterTask := PutNumber(ZigZag(info.level), 8) + (PutGroup(info.names) + afterNames);
    var src := PutNumber(info.task, 8) + afterTask;
    BodyWith(info, tail);
    WordRoundTrip(info.task, afterTask);
    WordRoundTrip(ZigZag(info.level), PutGroup(info.names) + afterNames);
    ZigZagRoundTrip(info.level);
    GroupRoundTrip(info.names, afterNames, 4);
    FilesRoundTrip(info.oldFiles, w + tail);
    FilesRoundTrip(info.newFiles, tail);
    assert src[16..] == src[8..][8..];
  }

  lemma {:induction false} NamesRead(src: Bytes, n: nat, before: seq<Bytes>)
    requires forall k :: 0 <= k < |before| ==> |before[k]| < MAX_COUNT
    ensures
      var read := GetNames(src, n, before);
      read.Some? ==>
        && |read.value.value| == |before| + n
        && forall k :: 0 <= k < |read.value.value| ==> |read.value.value[k]| < MAX_COUNT
    decreases n
  {
    if n > 0 && GetName(src).Some? {
      var name := GetName(src).value;
      NamesRead(name.rest, n - 1, before + [name.value]);
    }
  }

  lemma {:induction false} GroupRead(src: Bytes, slack: nat)
    ensures GetGroup(src, slack).Some? ==> NamesFit(GetGroup(src, slack).value.value)
  {
    if |src| >= 2 {
      NamesRead(src[2..], GetCount(src), []);
    }
  }

  lemma {:induction false} GroupsRead(src: Bytes, n: nat, before: seq<seq<Bytes>>)
    requires forall k :: 0 <= k < |before| ==> NamesFit(before[k])
    ensures
      var read := GetGroups(src, n, before);
      read.Some? ==>
        && |read.value.value| == |before| + n
        && forall k :: 0 <= k < |read.value.value| ==> NamesFit(read.value.value[k])
    decreases n
  {
    if n > 0 && GetGroup(src, 0).Some? {
      var group := GetGroup(src, 0).value;
      GroupRead(src, 0);
      GroupsRead(group.rest, n - 1, before + [group.value]);
    }
  }

  lemma {:induction false} FilesRead(src: Bytes)
    ensures GetFiles(src).Some? ==> FilesFit(GetFiles(src).value.value)
  {
    if |src| >= 2 {
      GroupsRead(src[2..], GetCount(src), []);
    }
  }

  /** Whatever is read has counts and lengths of 16 bits. */
  lemma {:induction false} ReadFits(src: Bytes)
    ensures Get(src).Some? ==> Fits(Get(src).value.value)
  {
    if Get(src).Some? {
      var names := GetGroup(src[16..], 4).value;
      GroupRead(src[16..], 4);
      var oldFiles := GetFiles(names.rest).value;
      FilesRead(names.rest);
      FilesRead(oldFiles.rest);
    }
  }

  // ----- what can be read

  lemma {:induction false} NameBack(src: Bytes)
    ensures var read := GetName(src); read.Some? ==> src == PutName(read.value.value) + read.value.rest
  {
    var read := GetName(src);
    if read.Some? {
      var rest := src[2..];
      CountBack(src);
      assert rest == read.value.value + read.value.rest;
      Associate(PutCount(GetCount(src)), read.value.value, read.value.rest);
    }
  }

  /** The bytes of the names after the first ones, and what follows them. */
  ghost predicate AreNames(src: Bytes, before: seq<Bytes>, all: seq<Bytes>, rest: Bytes) {
    before <= all && src == PutNames(all[|before|..]) + rest
  }

  lemma {:induction false} OneNameMore(src: Bytes, before: seq<Bytes>, name: Bytes, all: seq<Bytes>, rest: Bytes)
    requires AreNames(src, before + [name], all, rest)
    ensures AreNames(PutName(name) + src, before, all, rest)
  {
    var names := all[|before|..];
    assert all[|before|] == name && names[0] == name && names[1..] == all[|before| + 1..];
    Associate(PutName(name), PutNames(names[1..]), rest);
  }

  lemma {:induction false} NamesBack(src: Bytes, n: nat, before: seq<Bytes>)
    ensures
      var read := GetNames(src, n, before);
      read.Some? ==> AreNames(src, before, read.value.value, read.value.rest)
    decreases n
  {
    if n == 0 {
      assert before[|before|..] == [] && [] + src == src;
    } else if GetName(src).Some? {
      var name := GetName(src).value;
      NameBack(src);
      NamesBack(name.rest, n - 1, before + [name.value]);
      var read := GetNames(src, n, before);
      if read.Some? {
        OneNameMore(name.rest, before, name.value, read.value.value, read.value.rest);
      }
    }
  }

  lemma {:induction false} GroupBack(src: Bytes, slack: nat)
    ensures var read := GetGroup(src, slack); read.Some? ==> src == PutGroup(read.value.value) + read.value.rest
  {
    var read := GetGroup(src, slack);
    if read.Some? {
      var rest, l := src[2..], GetCount(src);
      CountBack(src);
      NamesBack(rest, l, []);
      NamesRead(rest, l, []);
      var names := read.value.value;
      assert names[0..] == names;
      Associate(PutCount(l), PutNames(names), read.value.rest);
    }
  }

  lemma {:induction false} GroupsBack(src: Bytes, n: nat, before: seq<seq<Bytes>>)
    ensures
      var read := GetGroups(src, n, before);
      read.Some? ==>
        && before <= read.value.value && |read.value.value| == |before| + n
        && src == PutGroups(read.value.value[|before|..]) + read.value.rest
    decreases n
  {
    var read := GetGroups(src, n, before);
    if n == 0 {
      assert before[|before|..] == [] && [] + src == src;
    } else if read.Some? {
      var group := GetGroup(src, 0).value;
      GroupBack(src, 0);
      GroupsBack(group.rest, n - 1, before + [group.value]);
      var groups := read.value.value[|before|..];
      assert groups[0] == group.value && groups[1..] == read.value.value[|before| + 1..];
      Associate(PutGroup(group.value), PutGroups(groups[1..]), read.value.rest);
    }
  }

  lemma {:induction false} FilesBack(src: Bytes)
    ensures var read := GetFiles(src); read.Some? ==> src == PutFiles(read.value.value) + read.value.rest
  {
    var read := GetFiles(src);
    if read.Some? {
      var l := GetCount(src);
      CountBack(src);
      GroupsBack(src[2..], l, []);
      var groups := read.value.value;
      assert groups[0..] == groups;
      Associate(PutCount(l), PutGroups(groups), read.value.rest);
    }
  }

  lemma {:induction false} WordBack(src: Bytes)
    requires |src| >= 8
    ensures src == PutNumber(GetWord(src), 8) + src[8..]
  {
    NumberBack(src[..8]);
    assert src == src[..8] + src[8..];
  }

  /** Whatever is read was written: the input is the bytes of the info and the bytes left over. */
  lemma {:induction false} ReadBack(src: Bytes)
    ensures var read := Get(src); read.Some? ==> src == Body(read.value.value) + read.value.rest
  {
    var read := Get(src);
    if read.Some? {
      var names := GetGroup(src[16..], 4).value;
      var oldFiles := GetFiles(names.rest).value;
      WordBack(src);
      WordBack(src[8..]);
      ZigZagBack(GetWord(src[8..]));
      assert src[8..][8..] == src[16..];
      GroupBack(src[16..], 4);
      FilesBack(names.rest);
      FilesBack(oldFiles.rest);
      BodyWith(read.value.value, read.value.rest);
    }
  }

  /** Reading succeeds on the bytes of an info that fits and on nothing else, and gives that info and what follows it.
      So the checks on the length refuse nothing that was written. */
  lemma {:induction false} ReadExact(src: Bytes, info: Info, rest: Bytes)
    ensures Get(src) == Some(Read(info, rest)) <==> Fits(info) && src == Body(info) + rest
  {
    if Get(src) == Some(Read(info, rest)) {
      ReadFits(src);
      ReadBack(src);
    }
    if Fits(info) && src == Body(info) + rest {
      RoundTrip(info, rest);
    }
  }

  /** Where everything stands: the task, the level, the names and the two lists of files. */
  lemma {:induction false} BodyLayout(info: Info)
    ensures
      var bytes := Body(info);
      && |bytes| >= 22 && GetNumber(bytes[..8]) == info.task && GetNumber(bytes[8..16]) == ZigZag(info.level)
      && bytes[16..] == PutGroup(info.names) + PutFiles(info.oldFiles) + PutFiles(info.newFiles)
      && GetNumber(bytes[16..18]) == |info.names| % 65536
  {
    var bytes, task, level := Body(info), PutNumber(info.task, 8), PutNumber(ZigZag(info.level), 8);
    Powers();
    NumberRoundTrip(info.task, 8);
    NumberRoundTrip(ZigZag(info.level), 8);
    assert bytes[..8] == task && bytes[8..16] == level;
    assert bytes[16..] == PutGroup(info.names) + (PutFiles(info.oldFiles) + PutFiles(info.newFiles));
    Associate(PutGroup(info.names), PutFiles(info.oldFiles), PutFiles(info.newFiles));
    assert bytes[16..18] == PutCount(|info.names|);
    NumberRoundTrip(|info.names| % MAX_COUNT, 2);
  }

  /** An info survives, with exactly the four bytes of the checksum left over, if and only if it fits. */
  lemma {:induction false} RoundTripIff(info: Info, checksum: Bytes)
    requires |checksum| == 4
    ensures Get(Body(info) + checksum) == Some(Read(info, checksum)) <==> Fits(info)
  {
    if Fits(info) {
      RoundTrip(info, checksum);
    } else {
      ReadFits(Body(info) + checksum);
    }
  }

  // ----- appending to a buffer and shrinking one

  method MarshalNames(dst: Bytes, names: seq<Bytes>) returns (out: Bytes)
    ensures out == dst + PutGroup(names)
  {
    out := dst + PutCount(|names|);
    for k := 0 to |names|
      invariant out == dst + (PutCount(|names|) + PutNames(names[..k]))
    {
      NamesNext(names, k);
      out := out + PutCount(|names[k]|) + names[k];
    }
    assert names[..|names|] == names;
  }

  lemma {:induction false} NamesJoin(a: seq<Bytes>, b: seq<Bytes>)
    ensures PutNames(a + b) == PutNames(a) + PutNames(b)
  {
    if a == [] {
      assert a + b == b;
    } else {
      assert (a + b)[1..] == a[1..] + b;
      NamesJoin(a[1..], b);
      Associate(PutName(a[0]), PutNames(a[1..]), PutNames(b));
    }
  }

  lemma {:induction false} NamesNext(names: seq<Bytes>, k: nat)
    requires k < |names|
    ensures PutNames(names[..k + 1]) == PutNames(names[..k]) + (PutCount(|names[k]|) + names[k])
  {
    TakeNext(names, k);
    var one: seq<Bytes> := [names[k]];
    NamesJoin(names[..k], one);
    assert PutNames(one) == PutName(names[k]) by {
      assert one[1..] == [];
    }
  }

  method MarshalFiles(dst: Bytes, groups: seq<seq<Bytes>>) returns (out: Bytes)
    ensures out == dst + PutFiles(groups)
  {
    out := dst + PutCount(|groups|);
    for i := 0 to |groups|
      invariant out == dst + (PutCount(|groups|) + PutGroups(groups[..i]))
    {
      GroupsNext(groups, i);
      out := MarshalNames(out, groups[i]);
    }
    assert groups[..|groups|] == groups;
  }

  lemma {:induction false} GroupsJoin(a: seq<seq<Bytes>>, b: seq<seq<Bytes>>)
    ensures PutGroups(a + b) == PutGroups(a) + PutGroups(b)
  {
    if a == [] {
      assert a + b == b;
    } else {
      assert (a + b)[1..] == a[1..] + b;
      GroupsJoin(a[1..], b);
      Associate(PutGroup(a[0]), PutGroups(a[1..]), PutGroups(b));
    }
  }

  lemma {:induction false} GroupsNext(groups: seq<seq<Bytes>>, i: nat)
    requires i < |groups|
    ensures PutGroups(groups[..i + 1]) == PutGroups(groups[..i]) + PutGroup(groups[i])
  {
    TakeNext(groups, i);
    var one: seq<seq<Bytes>> := [groups[i]];
    GroupsJoin(groups[..i], one);
    assert PutGroups(one) == PutGroup(groups[i]) by {
      assert one[1..] == [];
    }
  }

  /** Bytes that are the end of others: nothing was read past them. */
  ghost predicate EndOf(rest: Bytes, src: Bytes) {
    |rest| <= |src| && rest == src[|src| - |rest|..]
  }

  lemma {:induction false} EndOfEnd(a: Bytes, b: Bytes, c: Bytes)
    requires EndOf(a, b) && EndOf(b, c)
    ensures EndOf(a, c)
  {
  }

  /** Reads n names after those already read. */
  method UnmarshalNames(src: Bytes, n: nat) returns (names: seq<Bytes>, rest: Bytes, ok: bool)
    ensures EndOf(rest, src)
    ensures ok == GetNames(src, n, []).Some?
    ensures ok ==> GetNames(src, n, []) == Some(Read(names, rest))
  {
    names, rest := [], src;
    for i := 0 to n
      invariant EndOf(rest, src) && GetNames(src, n, []) == GetNames(rest, n - i, names)
    {
      if |rest| < 2 {
        return names, rest, false;
      }
      var l := GetCount(rest);
      ghost var before := rest;
      rest := rest[2..];
      EndOfEnd(rest, before, src);
      if |rest| < l {
        return names, rest, false;
      }
      ghost var middle := rest;
      names, rest := names + [rest[..l]], rest[l..];
      EndOfEnd(rest, middle, src);
    }
    ok := true;
  }

  method UnmarshalGroup(src: Bytes, slack: nat) returns (names: seq<Bytes>, rest: Bytes, ok: bool)
    ensures EndOf(rest, src)
    ensures ok == GetGroup(src, slack).Some?
    ensures ok ==> GetGroup(src, slack) == Some(Read(names, rest))
  {
    if |src| < 2 {
      return [], src, false;
    }
    var l := GetCount(src);
    if |src[2..]| < l + slack {
      return [], src[2..], false;
    }
    names, rest, ok := UnmarshalNames(src[2..], l);
    EndOfEnd(rest, src[2..], src);
  }

  method UnmarshalFiles(src: Bytes) returns (groups: seq<seq<Bytes>>, rest: Bytes, ok: bool)
    ensures EndOf(rest, src)
    ensures ok == GetFiles(src).Some?
    ensures ok ==> GetFiles(src) == Some(Read(groups, rest))
  {
    if |src| < 2 {
      return [], src, false;
    }
    var n := GetCount(src);
    groups, rest := [], src[2..];
    for i := 0 to n
      invariant EndOf(rest, src) && GetFiles(src) == GetGroups(rest, n - i, groups)
    {
      ghost var before := rest;
      var names, good;
      names, rest, good := UnmarshalGroup(rest, 0);
      EndOfEnd(rest, before, src);
      if !good {
        return groups, rest, false;
      }
      groups := groups + [names];
    }
    ok := true;
  }

  class DownSampleFilesInfo {
    var task: Word
    var level: Signed
    var names: seq<Bytes>
    var oldFiles: seq<seq<Bytes>>
    var newFiles: seq<seq<Bytes>>

    constructor (info: Info)
      ensures Value() == info
    {
      task, level, names, oldFiles, newFiles := info.task, info.level, info.names, info.oldFiles, info.newFiles;
    }

    function Value(): Info
      reads this
    {
      Info(task, level, names, oldFiles, newFiles)
    }

    /** Appends the info and the checksum of everything in the buffer. */
    method Marshal(dst: Bytes, checksum: Bytes -> nat) returns (out: Bytes)
      ensures out == dst + Body(Value()) + PutNumber(checksum(dst + Body(Value())) % 0x1_0000_0000, 4)
    {
      out := dst + PutNumber(task, 8);
      out := out + PutNumber(ZigZag(level), 8);
      out := MarshalNames(out, names);
      out := MarshalFiles(out, oldFiles);
      out := MarshalFiles(out, newFiles);
      BodyAfter(dst, Value());
      out := out + PutNumber(checksum(out) % 0x1_0000_0000, 4);
    }

    /** Reads an info over whatever was there; the bytes left are the end of the input even when it fails. */
    method Unmarshal(src: Bytes) returns (rest: Bytes, ok: bool)
      modifies this
      ensures EndOf(rest, src)
      ensures ok == Get(src).Some?
      ensures ok ==> Get(src) == Some(Read(Value(), rest))
    {
      if |src| < 20 {
        return src, false;
      }
      task, level := GetWord(src), UnZigZag(GetWord(src[8..]));
      names, rest, ok := UnmarshalGroup(src[16..], 4);
      EndOfEnd(rest, src[16..], src);
      if !ok {
        return;
      }
      ghost var afterNames := rest;
      oldFiles, rest, ok := UnmarshalFiles(rest);
      EndOfEnd(rest, afterNames, src);
      if !ok {
        return;
      }
      ghost var afterOld := rest;
      newFiles, rest, ok := UnmarshalFiles(rest);
      EndOfEnd(rest, afterOld, src);
    }
  }

  lemma {:induction false} BodyAfter(dst: Bytes, info: Info)
    ensures
      var a, b := PutNumber(info.task, 8), PutNumber(ZigZag(info.level), 8);
      dst + a + b + PutGroup(info.names) + PutFiles(info.oldFiles) + PutFiles(info.newFiles) == dst + Body(info)
  {
    var a, b := PutNumber(info.task, 8), PutNumber(ZigZag(info.level), 8);
    var n, o, w := PutGroup(info.names), PutFiles(info.oldFiles), PutFiles(info.newFiles);
    Associate(dst, a, b + (n + (o + w)));
    Associate(dst + a, b, n + (o + w));
    Associate(dst + a + b, n, o + w);
    Associate(dst + a + b + n, o, w);
  }

  /** A list of 65536 names is written as an empty one. */
  lemma {:induction false} ManyNamesFail(checksum: Bytes)
    requires |checksum| == 4
    ensures
      var info := Info(0, 0, seq(MAX_COUNT, _ => []), [], []);
      Get(Body(info) + checksum) != Some(Read(info, checksum))
  {
    RoundTripIff(Info(0, 0, seq(MAX_COUNT, _ => []), [], []), checksum);
  }
}
