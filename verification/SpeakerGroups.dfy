/**
 * Speaker groups as text: one line per group, its fields hex-encoded. Texts are
 * byte strings; nothing is assumed about their content.
 */
module SpeakerGroups {
  import opened Common

  datatype SpeakerGroup = SpeakerGroup(id: Bytes, name: Bytes, outputIds: seq<Bytes>)

  const BAR: byte := 124      // '|'
  const COMMA: byte := 44     // ','
  const NEWLINE: byte := 10
  const VERSION: Bytes := [118, 49]   // "v1"

  // ---- trimming

  predicate IsSpace(b: byte) { b == 32 || 9 <= b <= 13 }

  function TrimLeft(s: Bytes): Bytes { if s != [] && IsSpace(s[0]) then TrimLeft(s[1..]) else s }

  function TrimRight(s: Bytes): Bytes { if s != [] && IsSpace(s[|s|-1]) then TrimRight(s[..|s|-1]) else s }

  function Trim(s: Bytes): Bytes { TrimRight(TrimLeft(s)) }

  predicate Trimmed(s: Bytes) { s == [] || (!IsSpace(s[0]) && !IsSpace(s[|s|-1])) }

  lemma {:induction false} TrimLeftStops(s: Bytes)
    ensures TrimLeft(s) == [] || !IsSpace(TrimLeft(s)[0])
  {
    if s != [] && IsSpace(s[0]) { TrimLeftStops(s[1..]); }
  }

  lemma {:induction false} TrimRightStops(s: Bytes)
    ensures TrimRight(s) == [] || !IsSpace(TrimRight(s)[|TrimRight(s)|-1])
    ensures TrimRight(s) <= s
    decreases |s|
  {
    if s != [] && IsSpace(s[|s|-1]) { TrimRightStops(s[..|s|-1]); }
  }

  lemma TrimIsTrimmed(s: Bytes)
    ensures Trimmed(Trim(s))
    ensures Trimmed(s) ==> Trim(s) == s
  {
    TrimLeftStops(s);
    TrimRightStops(TrimLeft(s));
  }

  predicate Blank(s: Bytes) { forall i :: 0 <= i < |s| ==> s[i] in [9, 10, 11, 12, 13, 32] }

  lemma {:induction false} TrimLeftCuts(s: Bytes) returns (left: Bytes)
    ensures s == left + TrimLeft(s) && Blank(left)
  {
    if s == [] || !IsSpace(s[0]) {
      left := [];
    } else {
      var rest := TrimLeftCuts(s[1..]);
      left := [s[0]] + rest;
      assert s == [s[0]] + s[1..];
    }
  }

  lemma {:induction false} TrimRightCuts(s: Bytes) returns (right: Bytes)
    ensures s == TrimRight(s) + right && Blank(right)
    decreases |s|
  {
    if s == [] || !IsSpace(s[|s|-1]) {
      right := [];
    } else {
      var rest := TrimRightCuts(s[..|s|-1]);
      right := rest + [s[|s|-1]];
      assert s == s[..|s|-1] + [s[|s|-1]];
    }
  }

  /** Trimming cuts off white space, and all there is of it, at both ends. */
  lemma TrimCutsBlanks(s: Bytes) returns (left: Bytes, right: Bytes)
    ensures s == left + Trim(s) + right && Blank(left) && Blank(right)
    ensures Trim(s) != [] ==> !Blank([Trim(s)[0]]) && !Blank([Trim(s)[|Trim(s)|-1]])
  {
    left := TrimLeftCuts(s);
    right := TrimRightCuts(TrimLeft(s));
    TrimIsTrimmed(s);
    assert left + (Trim(s) + right) == left + Trim(s) + right;
    if Trim(s) != [] {
      var t := Trim(s);
      assert [t[0]][0] == t[0] && [t[|t|-1]][0] == t[|t|-1];
    }
  }

  /** find_if from the front, then from the back. */
  method TrimAscii(s: Bytes) returns (r: Bytes)
    ensures r == Trim(s)
  {
    var first := 0;
    while first < |s| && IsSpace(s[first])
      invariant 0 <= first <= |s| && TrimLeft(s[first..]) == TrimLeft(s)
    {
      assert s[first..][1..] == s[first+1..];
      first := first + 1;
    }
    if first == |s| {
      return [];
    }
    var rest := s[first..];
    var last := |rest|;
    assert rest[..last] == rest;
    while last > 0 && IsSpace(rest[last-1])
      invariant 0 <= last <= |rest| && TrimRight(rest[..last]) == TrimRight(rest)
    {
      assert rest[..last][..last-1] == rest[..last-1];
      last := last - 1;
    }
    r := rest[..last];
  }

  // ---- normal form

  /** Ids trimmed, empties dropped, the first of equal ids kept. */
  function NormalizeIds(ids: seq<Bytes>): seq<Bytes> {
    if ids == [] then [] else AddId(NormalizeIds(ids[..|ids|-1]), Trim(ids[|ids|-1]))
  }

  function AddId(ids: seq<Bytes>, id: Bytes): seq<Bytes> { if id == [] || id in ids then ids else ids + [id] }

  function Normalize(g: SpeakerGroup): SpeakerGroup {
    SpeakerGroup(Trim(g.id), Trim(g.name), NormalizeIds(g.outputIds))
  }

  predicate NormalIds(ids: seq<Bytes>) {
    && (forall i :: 0 <= i < |ids| ==> ids[i] != [] && Trimmed(ids[i]))
    && (forall i, j :: 0 <= i < j < |ids| ==> ids[i] != ids[j])
  }

  predicate Normal(g: SpeakerGroup) { Trimmed(g.id) && Trimmed(g.name) && NormalIds(g.outputIds) }

  lemma {:induction false} NormalizeIdsIsNormal(ids: seq<Bytes>)
    ensures NormalIds(NormalizeIds(ids))
  {
    if ids == [] {
    } else {
      NormalizeIdsIsNormal(ids[..|ids|-1]);
      TrimIsTrimmed(ids[|ids|-1]);
    }
  }

  lemma {:induction false} NormalIdsStay(ids: seq<Bytes>)
    requires NormalIds(ids)
    ensures NormalizeIds(ids) == ids
  {
    if ids == [] {
    } else {
      var init, last := ids[..|ids|-1], ids[|ids|-1];
      NormalIdsStay(init);
      TrimIsTrimmed(last);
      assert last !in init;
      assert ids == init + [last];
    }
  }

  lemma NormalizeGivesNormal(g: SpeakerGroup)
    ensures Normal(Normalize(g))
  {
    TrimIsTrimmed(g.id);
    TrimIsTrimmed(g.name);
    NormalizeIdsIsNormal(g.outputIds);
  }

  lemma NormalStays(g: SpeakerGroup)
    requires Normal(g)
    ensures Normalize(g) == g
  {
    TrimIsTrimmed(g.id);
    TrimIsTrimmed(g.name);
    NormalIdsStay(g.outputIds);
  }

  lemma NormalizeIsIdempotent(g: SpeakerGroup)
    ensures Normalize(Normalize(g)) == Normalize(g)
  {
    NormalizeGivesNormal(g);
    NormalStays(Normalize(g));
  }

  method NormalizeSpeakerGroup(g: SpeakerGroup) returns (r: SpeakerGroup)
    ensures r == Normalize(g)
  {
    var id := TrimAscii(g.id);
    var name := TrimAscii(g.name);
    var ids: seq<Bytes> := [];
    for i := 0 to |g.outputIds|
      invariant ids == NormalizeIds(g.outputIds[..i])
    {
      assert g.outputIds[..i+1][..i] == g.outputIds[..i];
      var trimmed := TrimAscii(g.outputIds[i]);
      if trimmed != [] && trimmed !in ids {
        ids := ids + [trimmed];
      }
    }
    assert g.outputIds[..|g.outputIds|] == g.outputIds;
    r := SpeakerGroup(id, name, ids);
  }

  ghost predicate SomeTrims(ids: seq<Bytes>, id: Bytes) { exists i :: 0 <= i < |ids| && Trim(ids[i]) == id }

  /** Every id that is not blank is there, trimmed, and nothing else is. */
  lemma {:induction false} NormalizeIdsKeeps(ids: seq<Bytes>, id: Bytes)
    ensures id in NormalizeIds(ids) <==> id != [] && SomeTrims(ids, id)
  {
    if ids == [] {
    } else {
      var init, last := ids[..|ids|-1], ids[|ids|-1];
      NormalizeIdsKeeps(init, id);
      if SomeTrims(init, id) {
        var i :| 0 <= i < |init| && Trim(init[i]) == id;
        assert ids[i] == init[i];
      }
      if i :| 0 <= i < |ids| && Trim(ids[i]) == id {
        if i < |init| { assert init[i] == ids[i]; }
      }
    }
  }

  // ---- hexadecimal

  const DIGITS: Bytes := [48, 49, 50, 51, 52, 53, 54, 55, 56, 57, 97, 98, 99, 100, 101, 102]
  const CAPITALS: Bytes := [48, 49, 50, 51, 52, 53, 54, 55, 56, 57, 65, 66, 67, 68, 69, 70]

  /** Small letters are written; both are read, and nothing else. */
  lemma HexDigitsAre(n: nat, b: byte)
    requires n < 16
    ensures HexDigit(n) == DIGITS[n]
    ensures HexValue(b) == Some(n) <==> b == DIGITS[n] || b == CAPITALS[n]
    ensures b !in DIGITS && b !in CAPITALS ==> HexValue(b) == None
  {
    if HexValue(b).Some? { assert DIGITS[HexValue(b).value] == b || CAPITALS[HexValue(b).value] == b; }
  }

  function HexDigit(n: nat): byte
    requires n < 16
  {
    if n < 10 then 48 + n else 87 + n
  }

  function HexValue(b: byte): Option<nat> {
    if 48 <= b <= 57 then Some(b - 48)
    else if 97 <= b <= 102 then Some(b - 87)
    else if 65 <= b <= 70 then Some(b - 55)
    else None
  }

  function HexEncode(s: Bytes): (r: Bytes)
    ensures |r| == 2 * |s|
    ensures forall i :: 0 <= i < |r| ==> HexValue(r[i]).Some?
  {
    if s == [] then [] else [HexDigit(s[0] / 16), HexDigit(s[0] % 16)] + HexEncode(s[1..])
  }

  function HexByte(high: byte, low: byte): Option<byte> {
    match (HexValue(high), HexValue(low))
    case (Some(h), Some(l)) => HexRange(high, low); Some(16 * h + l)
    case _ => None
  }

  lemma HexRange(high: byte, low: byte)
    requires HexValue(high).Some? && HexValue(low).Some?
    ensures 16 * HexValue(high).value + HexValue(low).value < 256
  {
  }

  /** None stands for an odd length or a character that is no hex digit. */
  function HexDecode(s: Bytes): Option<Bytes> {
    if s == [] then Some([])
    else if |s| == 1 then None
    else
      match (HexByte(s[0], s[1]), HexDecode(s[2..]))
      case (Some(b), Some(rest)) => Some([b] + rest)
      case _ => None
  }

  lemma {:induction false} HexRoundTrip(s: Bytes)
    ensures HexDecode(HexEncode(s)) == Some(s)
  {
    if s == [] {
    } else {
      HexRoundTrip(s[1..]);
      assert HexEncode(s)[2..] == HexEncode(s[1..]);
      HexByteRoundTrip(s[0]);
      assert s == [s[0]] + s[1..];
    }
  }

  lemma HexByteRoundTrip(b: byte)
    ensures HexByte(HexDigit(b / 16), HexDigit(b % 16)) == Some(b)
  {
  }

  lemma {:induction false} OddIsRejected(s: Bytes)
    requires |s| % 2 == 1
    ensures HexDecode(s) == None
  {
    if |s| > 1 { OddIsRejected(s[2..]); }
  }

  method HexEncodeText(s: Bytes) returns (r: Bytes)
    ensures r == HexEncode(s)
  {
    r := [];
    for i := 0 to |s|
      invariant r + HexEncode(s[i..]) == HexEncode(s)
    {
      assert s[i..][1..] == s[i+1..];
      ghost var pair, rest := [HexDigit(s[i] / 16), HexDigit(s[i] % 16)], HexEncode(s[i+1..]);
      assert r + (pair + rest) == (r + pair) + rest;
      r := r + [HexDigit(s[i] / 16)];
      r := r + [HexDigit(s[i] % 16)];
    }
  }

  method HexDecodeText(s: Bytes) returns (r: Option<Bytes>)
    ensures r == HexDecode(s)
  {
    if |s| % 2 != 0 {
      OddIsRejected(s);
      return None;
    }
    var decoded: Bytes := [];
    var index := 0;
    assert s[0..] == s;
    PrependStep([], [], HexDecode(s));
    while index < |s|
      invariant 0 <= index <= |s| && index % 2 == 0
      invariant HexDecode(s) == Prepend(decoded, HexDecode(s[index..]))
    {
      assert s[index..][2..] == s[index+2..];
      var high, low := HexValue(s[index]), HexValue(s[index+1]);
      if high.None? || low.None? {
        return None;
      }
      HexRange(s[index], s[index+1]);
      PrependStep(decoded, [16 * high.value + low.value], HexDecode(s[index+2..]));
      decoded := decoded + [16 * high.value + low.value];
      index := index + 2;
    }
    assert decoded + [] == decoded;
    r := Some(decoded);
  }

  // ---- fields

  /** Repeated getline: no field after a final separator. */
  function Fields(s: Bytes, separator: byte): seq<Bytes>
    decreases |s|
  {
    if s == [] then []
    else
      var i := Find(s, separator);
      if i == |s| then [s] else [s[..i]] + Fields(s[i+1..], separator)
  }

  lemma FindAfter(a: Bytes, rest: Bytes, b: byte)
    requires b !in a
    ensures Find(a + [b] + rest, b) == |a|
  {
    var s := a + [b] + rest;
    var i := Find(s, b);
    assert s[|a|] == b;
    assert forall j :: 0 <= j < |a| ==> s[j] == a[j];
  }

  lemma FieldsCons(a: Bytes, rest: Bytes, separator: byte)
    requires separator !in a
    ensures Fields(a + [separator] + rest, separator) == [a] + Fields(rest, separator)
  {
    var s := a + [separator] + rest;
    FindAfter(a, rest, separator);
    assert s[..|a|] == a && s[|a|+1..] == rest;
  }

  lemma FieldsLast(a: Bytes, separator: byte)
    requires separator !in a && a != []
    ensures Fields(a, separator) == [a]
  {
    assert forall j :: 0 <= j < |a| ==> a[j] in a;
  }

  method Split(s: Bytes, separator: byte) returns (fields: seq<Bytes>)
    ensures fields == Fields(s, separator)
  {
    fields := [];
    var rest := s;
    assert [] + Fields(s, separator) == Fields(s, separator);
    while rest != []
      invariant fields + Fields(rest, separator) == Fields(s, separator)
      decreases |rest|
    {
      var i := Find(rest, separator);
      ghost var later := Fields(rest, separator);
      if i == |rest| {
        fields := fields + [rest];
        rest := [];
      } else {
        assert fields + ([rest[..i]] + Fields(rest[i+1..], separator)) == (fields + [rest[..i]]) + Fields(rest[i+1..], separator);
        fields := fields + [rest[..i]];
        rest := rest[i+1..];
      }
    }
  }

  // ---- printing

  predicate Whole(g: SpeakerGroup) { g.id != [] && g.name != [] && g.outputIds != [] }

  function HexAll(ids: seq<Bytes>): (r: seq<Bytes>)
    ensures |r| == |ids|
    ensures forall i :: 0 <= i < |r| ==> r[i] == HexEncode(ids[i])
  {
    seq(|ids|, i requires 0 <= i < |ids| => HexEncode(ids[i]))
  }

  function Joined(fields: seq<Bytes>): Bytes
    requires fields != []
  {
    if |fields| == 1 then fields[0] else fields[0] + [COMMA] + Joined(fields[1..])
  }

  function Line(g: SpeakerGroup): Bytes
    requires g.outputIds != []
  {
    VERSION + [BAR] + (HexEncode(g.id) + [BAR] + (HexEncode(g.name) + [BAR] + Joined(HexAll(g.outputIds))))
  }

  function Serialize(groups: seq<SpeakerGroup>): Bytes {
    if groups == [] then []
    else
      var g := Normalize(groups[0]);
      (if Whole(g) then Line(g) + [NEWLINE] else []) + Serialize(groups[1..])
  }

  // ---- parsing

  function DecodeAll(fields: seq<Bytes>): Option<seq<Bytes>> {
    if fields == [] then Some([])
    else
      match (HexDecode(fields[0]), DecodeAll(fields[1..]))
      case (Some(id), Some(rest)) => Some([id] + rest)
      case _ => None
  }

  /** None stands for a line that is skipped. */
  function ParseLine(line: Bytes): Option<SpeakerGroup> {
    var fields := Fields(line, BAR);
    if |fields| != 4 || fields[0] != VERSION then None
    else
      match (HexDecode(fields[1]), HexDecode(fields[2]), DecodeAll(Fields(fields[3], COMMA)))
      case (Some(id), Some(name), Some(ids)) =>
        var g := Normalize(SpeakerGroup(id, name, ids));
        if Whole(g) then Some(g) else None
      case _ => None
  }

  predicate HasId(groups: seq<SpeakerGroup>, id: Bytes) { exists i :: 0 <= i < |groups| && groups[i].id == id }

  function AddGroup(groups: seq<SpeakerGroup>, g: Option<SpeakerGroup>): seq<SpeakerGroup> {
    if g.None? || HasId(groups, g.value.id) then groups else groups + [g.value]
  }

  function Collect(groups: seq<SpeakerGroup>, lines: seq<Bytes>): seq<SpeakerGroup>
    decreases |lines|
  {
    if lines == [] then groups else Collect(AddGroup(groups, ParseLine(lines[0])), lines[1..])
  }

  function Deserialize(text: Bytes): seq<SpeakerGroup> { Collect([], Fields(text, NEWLINE)) }

  // ---- what parsing must give back

  function WholeOnly(g: SpeakerGroup): Option<SpeakerGroup> { if Whole(g) then Some(g) else None }

  /** The groups in normal form, incomplete ones dropped, the first of each id kept. */
  function Canonical(kept: seq<SpeakerGroup>, groups: seq<SpeakerGroup>): seq<SpeakerGroup>
    decreases |groups|
  {
    if groups == [] then kept else Canonical(AddGroup(kept, WholeOnly(Normalize(groups[0]))), groups[1..])
  }

  predicate IsCanonical(groups: seq<SpeakerGroup>) {
    && (forall i :: 0 <= i < |groups| ==> Normal(groups[i]) && Whole(groups[i]))
    && (forall i, j :: 0 <= i < j < |groups| ==> groups[i].id != groups[j].id)
  }

  lemma HexIsPlain(s: Bytes, b: byte)
    requires HexValue(b).None?
    ensures b !in HexEncode(s)
  {
  }

  lemma {:induction false} JoinedFields(ids: seq<Bytes>)
    requires ids != [] && forall i :: 0 <= i < |ids| ==> ids[i] != []
    ensures Fields(Joined(HexAll(ids)), COMMA) == HexAll(ids)
    ensures BAR !in Joined(HexAll(ids)) && NEWLINE !in Joined(HexAll(ids)) && Joined(HexAll(ids)) != []
  {
    var h := HexEncode(ids[0]);
    HexIsPlain(ids[0], COMMA);
    HexIsPlain(ids[0], BAR);
    HexIsPlain(ids[0], NEWLINE);
    if |ids| == 1 {
      assert HexAll(ids) == [h];
      FieldsLast(h, COMMA);
    } else {
      assert HexAll(ids) == [h] + HexAll(ids[1..]);
      assert HexAll(ids)[1..] == HexAll(ids[1..]);
      JoinedFields(ids[1..]);
      FieldsCons(h, Joined(HexAll(ids[1..])), COMMA);
    }
  }

  lemma {:induction false} DecodeAllHex(ids: seq<Bytes>)
    ensures DecodeAll(HexAll(ids)) == Some(ids)
  {
    if ids == [] {
    } else {
      HexRoundTrip(ids[0]);
      assert HexAll(ids)[1..] == HexAll(ids[1..]);
      DecodeAllHex(ids[1..]);
      assert ids == [ids[0]] + ids[1..];
    }
  }

  lemma FourFields(v: Bytes, i: Bytes, n: Bytes, j: Bytes)
    requires BAR !in v && BAR !in i && BAR !in n && BAR !in j && j != []
    ensures Fields(v + [BAR] + (i + [BAR] + (n + [BAR] + j)), BAR) == [v, i, n, j]
  {
    var third := n + [BAR] + j;
    var second := i + [BAR] + third;
    calc {
      Fields(v + [BAR] + second, BAR);
    == { FieldsCons(v, second, BAR); }
      [v] + Fields(second, BAR);
    == { FieldsCons(i, third, BAR); }
      [v] + ([i] + Fields(third, BAR));
    == { FieldsCons(n, j, BAR); }
      [v] + ([i] + ([n] + Fields(j, BAR)));
    == { FieldsLast(j, BAR); }
      [v] + ([i] + ([n] + [j]));
    ==
      [v, i, n, j];
    }
  }

  lemma LineFields(g: SpeakerGroup)
    requires Normal(g) && Whole(g)
    ensures Fields(Line(g), BAR) == [VERSION, HexEncode(g.id), HexEncode(g.name), Joined(HexAll(g.outputIds))]
    ensures NEWLINE !in Line(g)
  {
    JoinedFields(g.outputIds);
    HexIsPlain(g.id, BAR);
    HexIsPlain(g.name, BAR);
    HexIsPlain(g.id, NEWLINE);
    HexIsPlain(g.name, NEWLINE);
    FourFields(VERSION, HexEncode(g.id), HexEncode(g.name), Joined(HexAll(g.outputIds)));
  }

  lemma ParsePrinted(g: SpeakerGroup)
    requires Normal(g) && Whole(g)
    ensures ParseLine(Line(g)) == Some(g)
  {
    LineFields(g);
    HexRoundTrip(g.id);
    HexRoundTrip(g.name);
    JoinedFields(g.outputIds);
    DecodeAllHex(g.outputIds);
    NormalStays(g);
  }

  lemma {:induction false} CollectPrinted(kept: seq<SpeakerGroup>, groups: seq<SpeakerGroup>)
    ensures Collect(kept, Fields(Serialize(groups), NEWLINE)) == Canonical(kept, groups)
    decreases |groups|
  {
    if groups == [] {
    } else {
      var g := Normalize(groups[0]);
      var next := AddGroup(kept, WholeOnly(g));
      CollectPrinted(next, groups[1..]);
      if Whole(g) {
        NormalizeGivesNormal(groups[0]);
        LineFields(g);
        ParsePrinted(g);
        FieldsCons(Line(g), Serialize(groups[1..]), NEWLINE);
        var lines := Fields(Serialize(groups), NEWLINE);
        assert lines[0] == Line(g) && lines[1..] == Fields(Serialize(groups[1..]), NEWLINE);
      } else {
        assert [] + Serialize(groups[1..]) == Serialize(groups[1..]);
      }
    }
  }

  /** Print and parse: exactly the complete groups, in normal form, the first of
    * each id, in order. */
  lemma PrintParse(groups: seq<SpeakerGroup>)
    ensures Deserialize(Serialize(groups)) == Canonical([], groups)
  {
    CollectPrinted([], groups);
  }

  lemma {:induction false} CollectIsCanonical(kept: seq<SpeakerGroup>, lines: seq<Bytes>)
    requires IsCanonical(kept)
    ensures IsCanonical(Collect(kept, lines))
    decreases |lines|
  {
    if lines == [] {
    } else {
      var fields := Fields(lines[0], BAR);
      if ParseLine(lines[0]).Some? {
        NormalizeGivesNormal(SpeakerGroup(
          HexDecode(fields[1]).value, HexDecode(fields[2]).value, DecodeAll(Fields(fields[3], COMMA)).value));
      }
      CollectIsCanonical(AddGroup(kept, ParseLine(lines[0])), lines[1..]);
    }
  }

  lemma {:induction false} CanonicalStays(kept: seq<SpeakerGroup>, groups: seq<SpeakerGroup>)
    requires IsCanonical(kept + groups)
    ensures Canonical(kept, groups) == kept + groups
    decreases |groups|
  {
    if groups == [] {
      assert kept + groups == kept;
    } else {
      var all := kept + groups;
      assert all[|kept|] == groups[0];
      NormalStays(groups[0]);
      forall i | 0 <= i < |kept| ensures kept[i].id != groups[0].id { assert all[i] == kept[i]; }
      assert (kept + [groups[0]]) + groups[1..] == all;
      CanonicalStays(kept + [groups[0]], groups[1..]);
    }
  }

  /** The text of one group with one-byte texts, character by character: the version, the
    * id, the name and the outputs in hexadecimal, with bars, a comma and a line break. */
  lemma OneGroupText(g: SpeakerGroup, a: byte, b: byte, c: byte, d: byte)
    requires g == SpeakerGroup([a], [b], [[c], [d]]) && Normal(g)
    ensures Serialize([g]) ==
      [118, 49, 124, HexDigit(a / 16), HexDigit(a % 16), 124, HexDigit(b / 16), HexDigit(b % 16), 124,
       HexDigit(c / 16), HexDigit(c % 16), 44, HexDigit(d / 16), HexDigit(d % 16), 10]
  {
    NormalStays(g);
    TwoIdsText(c, d);
    HexOne(a);
    HexOne(b);
    assert [g][1..] == [];
    assert Serialize([g]) == Line(g) + [10] + [];
  }

  lemma TwoIdsText(c: byte, d: byte)
    ensures Joined(HexAll([[c], [d]])) ==
      [HexDigit(c / 16), HexDigit(c % 16), 44, HexDigit(d / 16), HexDigit(d % 16)]
  {
    HexOne(c);
    HexOne(d);
    var h := HexAll([[c], [d]]);
    assert h[1..] == [HexEncode([d])];
  }

  lemma HexOne(b: byte)
    ensures HexEncode([b]) == [HexDigit(b / 16), HexDigit(b % 16)]
  {
    assert [b][1..] == [];
  }

  /** A line that is not of version 1 is skipped, whatever follows. */
  lemma VersionIsNeeded(line: Bytes)
    requires ParseLine(line).Some?
    ensures |line| > 3 && line[0] == 118 && line[1] == 49 && line[2] == 124
  {
    var n := Find(line, BAR);
    var fields := Fields(line, BAR);
    assert fields[0] == if n == |line| then line else line[..n];
    assert n < |line|;
    assert line[..n] == [118, 49] && |line[..n]| == n;
    assert line[0] == line[..n][0] && line[1] == line[..n][1];
    assert |Fields(line[n+1..], BAR)| == 3;
    assert line[n+1..] != [];
  }

  /** Whatever text was stored, parsing and printing it once settles it: the same
    * groups come back, and printing them again gives the same text. */
  lemma PrintingSettles(text: Bytes)
    ensures Deserialize(Serialize(Deserialize(text))) == Deserialize(text)
    ensures Serialize(Deserialize(Serialize(Deserialize(text)))) == Serialize(Deserialize(text))
  {
    var groups := Deserialize(text);
    CollectIsCanonical([], Fields(text, NEWLINE));
    assert [] + groups == groups;
    PrintParse(groups);
    CanonicalStays([], groups);
  }

  // ---- the printer and parser as loops

  method SerializeSpeakerGroups(groups: seq<SpeakerGroup>) returns (text: Bytes)
    ensures text == Serialize(groups)
  {
    text := [];
    for i := 0 to |groups|
      invariant text + Serialize(groups[i..]) == Serialize(groups)
    {
      assert groups[i..][1..] == groups[i+1..];
      var g := NormalizeSpeakerGroup(groups[i]);
      ghost var rest := Serialize(groups[i+1..]);
      if g.id == [] || g.name == [] || g.outputIds == [] {
        assert [] + rest == rest;
        continue;
      }
      var line := PrintLine(g);
      assert text + ((line + [NEWLINE]) + rest) == (text + (line + [NEWLINE])) + rest;
      text := text + (line + [NEWLINE]);
    }
  }

  method PrintLine(g: SpeakerGroup) returns (line: Bytes)
    requires g.outputIds != []
    ensures line == Line(g)
  {
    var id := HexEncodeText(g.id);
    var name := HexEncodeText(g.name);
    var ids: Bytes := [];
    for index := 0 to |g.outputIds|
      invariant index == 0 ==> ids == []
      invariant index > 0 ==> ids == Joined(HexAll(g.outputIds[..index]))
    {
      if index != 0 {
        JoinedSnoc(HexAll(g.outputIds[..index]), HexEncode(g.outputIds[index]));
        assert HexAll(g.outputIds[..index+1]) == HexAll(g.outputIds[..index]) + [HexEncode(g.outputIds[index])];
        ids := ids + [COMMA];
      }
      var encoded := HexEncodeText(g.outputIds[index]);
      ids := ids + encoded;
    }
    assert g.outputIds[..|g.outputIds|] == g.outputIds;
    line := VERSION + [BAR] + (id + [BAR] + (name + [BAR] + ids));
  }

  lemma {:induction false} JoinedSnoc(fields: seq<Bytes>, last: Bytes)
    requires fields != []
    ensures Joined(fields + [last]) == Joined(fields) + [COMMA] + last
  {
    assert (fields + [last])[1..] == fields[1..] + [last];
    if |fields| == 1 {
      assert fields[1..] + [last] == [last];
    } else {
      JoinedSnoc(fields[1..], last);
      var a, b := fields[0] + [COMMA], Joined(fields[1..]);
      assert a + (b + [COMMA] + last) == (a + b) + [COMMA] + last;
    }
  }

  method DeserializeSpeakerGroups(text: Bytes) returns (groups: seq<SpeakerGroup>)
    ensures groups == Deserialize(text)
  {
    groups := [];
    var lines := Split(text, NEWLINE);
    for i := 0 to |lines|
      invariant Collect(groups, lines[i..]) == Deserialize(text)
    {
      assert lines[i..][1..] == lines[i+1..];
      var g := ReadLine(lines[i]);
      if g.None? || HasId(groups, g.value.id) {
        continue;
      }
      groups := groups + [g.value];
    }
  }

  method ReadLine(line: Bytes) returns (g: Option<SpeakerGroup>)
    ensures g == ParseLine(line)
  {
    var fields := Split(line, BAR);
    if |fields| != 4 || fields[0] != VERSION {
      return None;
    }
    var id := HexDecodeText(fields[1]);
    var name := HexDecodeText(fields[2]);
    if id.None? || name.None? {
      return None;
    }
    var ids := ReadIds(fields[3]);
    if ids.None? {
      return None;
    }
    var group := NormalizeSpeakerGroup(SpeakerGroup(id.value, name.value, ids.value));
    if group.id == [] || group.name == [] || group.outputIds == [] {
      return None;
    }
    g := Some(group);
  }

  method ReadIds(text: Bytes) returns (ids: Option<seq<Bytes>>)
    ensures ids == DecodeAll(Fields(text, COMMA))
  {
    var fields := Split(text, COMMA);
    var decoded: seq<Bytes> := [];
    assert fields[0..] == fields;
    PrependStep([], [], DecodeAll(fields));
    for i := 0 to |fields|
      invariant DecodeAll(fields) == Prepend(decoded, DecodeAll(fields[i..]))
    {
      assert fields[i..][1..] == fields[i+1..];
      var id := HexDecodeText(fields[i]);
      if id.None? {
        return None;
      }
      PrependStep(decoded, [id.value], DecodeAll(fields[i+1..]));
      decoded := decoded + [id.value];
    }
    assert decoded + [] == decoded;
    ids := Some(decoded);
  }
}
