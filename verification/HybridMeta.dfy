/** Hybrid streaming: samples the client keeps locally, and the metadata sent in their place. */
module HybridMeta {
  import opened Common
  import opened Decimal
  import opened Text
  import opened Interleaved

  const KEY_FRAME_TYPE := "I"
  const P_FRAME_TYPE := "P"
  const PREFIX := "local:"
  const COMMA := ","

  datatype HybridSampleMeta = HybridSampleMeta(sampleNo: int, startOffset: int, len: int, timeStamp: int)

  // ------------------------------------------------------- the not-to-send map

  type HybridMap = map<int, map<string, map<int, HybridSampleMeta>>>

  /** One SETUP request's list of samples of a camera and view not to be sent. */
  datatype NotTx = NotTx(camId: int, viewNum: int, sampleIds: seq<int>)

  function FrameType(sampleNo: int, gop: int): string
    requires gop > 0
  {
    if TruncMod(sampleNo, gop) == 0 then KEY_FRAME_TYPE else P_FRAME_TYPE
  }

  function ViewKey(viewNum: int, frameType: string): string
  {
    IntToString(viewNum) + frameType
  }

  /** getHybridSampleMetaSafe. */
  function Lookup(m: HybridMap, camId: int, vidAndFrameType: string, sampleNo: int): Option<HybridSampleMeta>
  {
    if camId !in m then None
    else if vidAndFrameType !in m[camId] then None
    else if sampleNo !in m[camId][vidAndFrameType] then None
    else Some(m[camId][vidAndFrameType][sampleNo])
  }

  function LocalMeta(sampleNo: int): HybridSampleMeta
  {
    HybridSampleMeta(sampleNo, -1, -1, -1)
  }

  /** Whether some list names this camera, view and sample: a plain set of triples. */
  ghost predicate Listed(lists: seq<NotTx>, camId: int, viewNum: int, sampleNo: int)
  {
    exists l :: l in lists && l.camId == camId && l.viewNum == viewNum && sampleNo in l.sampleIds
  }

  /** Whether reading a sample finds it in the map, with the key rebuilt at read time. */
  predicate Found(m: HybridMap, gop: int, camId: int, viewNum: int, sampleNo: int)
    requires gop > 0
  {
    Lookup(m, camId, ViewKey(viewNum, FrameType(sampleNo, gop)), sampleNo) == Some(LocalMeta(sampleNo))
  }

  /** The map answers, for every camera, view and sample, as the set of triples does. */
  ghost predicate Agrees(m: HybridMap, gop: int, lists: seq<NotTx>)
    requires gop > 0
  {
    forall c, v, n ::
      && (Found(m, gop, c, v, n) <==> Listed(lists, c, v, n))
      && (Lookup(m, c, ViewKey(v, FrameType(n, gop)), n).Some? <==> Listed(lists, c, v, n))
  }

  lemma ViewKeyInjective(v: int, t: string, w: int, u: string)
    requires |t| == |u| == 1 && ViewKey(v, t) == ViewKey(w, u)
    ensures v == w && t == u
  {
    var k := ViewKey(v, t);
    assert IntToString(v) == k[..|k| - 1] == IntToString(w);
    assert t[0] == k[|k| - 1] == u[0];
    IntRoundTrip(v);
    IntRoundTrip(w);
  }

  /** One entry: create the missing levels, and leave an entry that is there alone. */
  function Record(m: HybridMap, gop: int, camId: int, viewNum: int, sampleIdx: int): HybridMap
    requires gop > 0
  {
    var key := ViewKey(viewNum, FrameType(sampleIdx, gop));
    var views := if camId in m then m[camId] else map[];
    var samples := if key in views then views[key] else map[];
    m[camId := views[key := if sampleIdx in samples then samples else samples[sampleIdx := LocalMeta(sampleIdx)]]]
  }

  lemma RecordLookup(m: HybridMap, gop: int, camId: int, viewNum: int, sampleIdx: int, c: int, v: int, n: int)
    requires gop > 0
    ensures var key := ViewKey(v, FrameType(n, gop));
      Lookup(Record(m, gop, camId, viewNum, sampleIdx), c, key, n) ==
        if c == camId && v == viewNum && n == sampleIdx && Lookup(m, c, key, n).None?
        then Some(LocalMeta(n)) else Lookup(m, c, key, n)
  {
    if ViewKey(v, FrameType(n, gop)) == ViewKey(viewNum, FrameType(sampleIdx, gop)) {
      ViewKeyInjective(v, FrameType(n, gop), viewNum, FrameType(sampleIdx, gop));
    }
  }

  function RecordList(m: HybridMap, gop: int, list: NotTx): HybridMap
    requires gop > 0
    decreases |list.sampleIds|
  {
    if list.sampleIds == [] then m
    else
      var n := |list.sampleIds| - 1;
      Record(RecordList(m, gop, NotTx(list.camId, list.viewNum, list.sampleIds[..n])),
             gop, list.camId, list.viewNum, list.sampleIds[n])
  }

  /** What is read of a list's text, and whether reading it ends with an exception. */
  datatype NotTxRead = NotTxRead(list: NotTx, threw: bool)

  /** The sample numbers read so far, then those from field i on, up to one that cannot be read. */
  function ReadIds(parse: string -> Option<int>, done: seq<int>, fields: seq<string>, i: nat): (seq<int>, bool)
    decreases |fields| - i
  {
    if i >= |fields| then (done, false)
    else
      match parse(fields[i])
      case None => (done, true)
      case Some(n) => ReadIds(parse, done + [n], fields, i + 1)
  }

  /** Camera, view and sample numbers, separated by commas. */
  function ReadNotTx(text: string): NotTxRead
  {
    ReadFields(StoI, Getline(text, ','))
  }

  function ReadFields(parse: string -> Option<int>, fields: seq<string>): NotTxRead
  {
    if |fields| < 2 || parse(fields[0]).None? || parse(fields[1]).None? then NotTxRead(NotTx(0, 0, []), true)
    else
      var (ids, threw) := ReadIds(parse, [], fields, 2);
      NotTxRead(NotTx(parse(fields[0]).value, parse(fields[1]).value, ids), threw)
  }

  function Numbers(list: NotTx): seq<int>
  {
    [list.camId, list.viewNum] + list.sampleIds
  }

  function PrintedNumbers(list: NotTx): seq<string>
  {
    seq(|Numbers(list)|, i requires 0 <= i < |Numbers(list)| => IntToString(Numbers(list)[i]))
  }

  /** Fields that can be read, up to the end or one that cannot: what was read before it is kept. */
  lemma {:induction false} IdsAreRead(parse: string -> Option<int>, ids: seq<int>, fields: seq<string>, i: nat)
    requires i <= |ids| && |ids| + 2 <= |fields|
    requires forall k :: 0 <= k < |ids| ==> parse(fields[k + 2]) == Some(ids[k])
    requires |ids| + 2 < |fields| ==> parse(fields[|ids| + 2]) == None
    ensures ReadIds(parse, ids[..i], fields, i + 2) == (ids, |ids| + 2 < |fields|)
    decreases |ids| - i
  {
    if i < |ids| {
      IdsAreRead(parse, ids, fields, i + 1);
      NextOfPrefix(ids, i);
    } else {
      assert ids[..i] == ids;
    }
  }

  lemma FieldsAreRead(parse: string -> Option<int>, list: NotTx, fields: seq<string>)
    requires |list.sampleIds| + 2 <= |fields|
    requires parse(fields[0]) == Some(list.camId) && parse(fields[1]) == Some(list.viewNum)
    requires forall k :: 0 <= k < |list.sampleIds| ==> parse(fields[k + 2]) == Some(list.sampleIds[k])
    requires |list.sampleIds| + 2 < |fields| ==> parse(fields[|list.sampleIds| + 2]) == None
    ensures ReadFields(parse, fields) == NotTxRead(list, |list.sampleIds| + 2 < |fields|)
  {
    IdsAreRead(parse, list.sampleIds, fields, 0);
    assert list.sampleIds[..0] == [];
  }

  lemma FieldsAreSplit(list: NotTx, rest: seq<string>)
    requires forall i :: 0 <= i < |rest| ==> ',' !in rest[i] && rest[i] != ""
    ensures var fields := PrintedNumbers(list) + rest; Getline(Join(fields, COMMA), ',') == fields
  {
    var fields := PrintedNumbers(list) + rest;
    forall i | 0 <= i < |fields| ensures ',' !in fields[i] && fields[i] != "" {
      if i < |Numbers(list)| { IntIsPlain(Numbers(list)[i]); }
    }
    assert [','] == COMMA;
    GetlineOfJoinIff(fields, ',');
  }

  /**
   * A printed list is read back; a field without a digit after it throws, and what
   * stands before it has been read.
   */
  lemma NotTxRoundTrip(list: NotTx, rest: seq<string>)
    requires Int32(list.camId) && Int32(list.viewNum)
    requires forall k :: 0 <= k < |list.sampleIds| ==> Int32(list.sampleIds[k])
    requires forall i :: 0 <= i < |rest| ==> ',' !in rest[i] && rest[i] != ""
    requires rest != [] ==> forall i :: 0 <= i < |rest[0]| ==> !IsDigit(rest[0][i])
    ensures ReadNotTx(Join(PrintedNumbers(list) + rest, COMMA)) == NotTxRead(list, rest != [])
  {
    var fields, n := PrintedNumbers(list) + rest, |list.sampleIds|;
    FieldsAreSplit(list, rest);
    PrintedNumberIsRead(list, 0);
    PrintedNumberIsRead(list, 1);
    forall k | 0 <= k < n ensures StoI(fields[k + 2]) == Some(list.sampleIds[k]) {
      PrintedNumberIsRead(list, k + 2);
    }
    if rest != [] { StoIWithoutDigit(rest[0]); }
    FieldsAreRead(StoI, list, fields);
  }

  /** A list without a readable camera and view throws before it names any sample. */
  lemma UnreadableHeadThrows(fields: seq<string>, k: nat)
    requires k < 2 && fields != [] && forall i :: 0 <= i < |fields| ==> ',' !in fields[i] && fields[i] != ""
    requires k < |fields| ==> forall i :: 0 <= i < |fields[k]| ==> !IsDigit(fields[k][i])
    ensures var read := ReadNotTx(Join(fields, COMMA)); read.threw && read.list.sampleIds == []
  {
    assert [','] == COMMA;
    GetlineOfJoinIff(fields, ',');
    if k < |fields| { StoIWithoutDigit(fields[k]); }
  }

  lemma PrintedNumberIsRead(list: NotTx, i: nat)
    requires i < |Numbers(list)| && Int32(Numbers(list)[i])
    ensures StoI(PrintedNumbers(list)[i]) == Some(Numbers(list)[i])
  {
    StoIRoundTrip(Numbers(list)[i]);
  }

  class HybridTable {
    var hybridMetaMap: HybridMap

    constructor ()
      ensures hybridMetaMap == map[]
    {
      hybridMetaMap := map[];
    }

    /** Entries before a number that cannot be read stay recorded. */
    method ParseHybridVideoSampleMetaDataForDandS(gop: int, notTxIdListStr: string) returns (threw: bool)
      requires gop > 0
      modifies this
      ensures threw == ReadNotTx(notTxIdListStr).threw
      ensures hybridMetaMap == RecordList(old(hybridMetaMap), gop, ReadNotTx(notTxIdListStr).list)
    {
      var infoArr := SplitToVecBySingleChar(notTxIdListStr, ',');
      threw := RecordFields(gop, StoI, infoArr);
    }

    method RecordFields(gop: int, stoi: string -> Option<int>, infoArr: seq<string>) returns (threw: bool)
      requires gop > 0
      modifies this
      ensures threw == ReadFields(stoi, infoArr).threw
      ensures hybridMetaMap == RecordList(old(hybridMetaMap), gop, ReadFields(stoi, infoArr).list)
    {
      if |infoArr| < 2 || stoi(infoArr[0]).None? || stoi(infoArr[1]).None? {
        return true;
      }
      var camId, viewNum := stoi(infoArr[0]).value, stoi(infoArr[1]).value;
      var i := 2;
      ghost var done := [];
      while i < |infoArr|
        invariant 2 <= i <= |infoArr|
        invariant ReadIds(stoi, done, infoArr, i) == ReadIds(stoi, [], infoArr, 2)
        invariant hybridMetaMap == RecordList(old(hybridMetaMap), gop, NotTx(camId, viewNum, done))
      {
        var sampleIdx := stoi(infoArr[i]);
        if sampleIdx.None? {
          return true;
        }
        RecordSample(gop, camId, viewNum, sampleIdx.value);
        RecordListSnoc(old(hybridMetaMap), gop, camId, viewNum, done, sampleIdx.value);
        done := done + [sampleIdx.value];
        i := i + 1;
      }
      return false;
    }

    /** The body of that loop. */
    method RecordSample(gop: int, camId: int, viewNum: int, sampleIdx: int)
      requires gop > 0
      modifies this
      ensures hybridMetaMap == Record(old(hybridMetaMap), gop, camId, viewNum, sampleIdx)
    {
      ghost var before := hybridMetaMap;
      var frameType := FrameType(sampleIdx, gop);
      if camId !in hybridMetaMap {
        hybridMetaMap := hybridMetaMap[camId := map[]];
      }
      var viewNumberAndFrameTypeMap := hybridMetaMap[camId];
      var viewNumberFrameKey := ViewKey(viewNum, frameType);
      if viewNumberFrameKey !in viewNumberAndFrameTypeMap {
        viewNumberAndFrameTypeMap := viewNumberAndFrameTypeMap[viewNumberFrameKey := map[]];
      }
      var sampleMetaMap := viewNumberAndFrameTypeMap[viewNumberFrameKey];
      if sampleIdx !in sampleMetaMap {
        sampleMetaMap := sampleMetaMap[sampleIdx := LocalMeta(sampleIdx)];
      }
      // the references into the nested maps are written back
      viewNumberAndFrameTypeMap := viewNumberAndFrameTypeMap[viewNumberFrameKey := sampleMetaMap];
      hybridMetaMap := hybridMetaMap[camId := viewNumberAndFrameTypeMap];
      RecordUnfolds(before, gop, camId, viewNum, sampleIdx, hybridMetaMap);
    }
  }

  lemma RecordListSnoc(m: HybridMap, gop: int, camId: int, viewNum: int, ids: seq<int>, id: int)
    requires gop > 0
    ensures RecordList(m, gop, NotTx(camId, viewNum, ids + [id]))
      == Record(RecordList(m, gop, NotTx(camId, viewNum, ids)), gop, camId, viewNum, id)
  {
    assert (ids + [id])[..|ids|] == ids;
  }

  lemma RecordUnfolds(before: HybridMap, gop: int, camId: int, viewNum: int, sampleIdx: int, after: HybridMap)
    requires gop > 0
    requires var key := ViewKey(viewNum, FrameType(sampleIdx, gop));
      var m := if camId in before then before else before[camId := map[]];
      var views := if key in m[camId] then m[camId] else m[camId][key := map[]];
      var samples := if sampleIdx in views[key] then views[key] else views[key][sampleIdx := LocalMeta(sampleIdx)];
      after == m[camId := views[key := samples]]
    ensures after == Record(before, gop, camId, viewNum, sampleIdx)
  {
    var key := ViewKey(viewNum, FrameType(sampleIdx, gop));
    var old' := if camId in before then before[camId] else map[];
    var samples' := if key in old' then old'[key] else map[];
    var samples := if sampleIdx in samples' then samples' else samples'[sampleIdx := LocalMeta(sampleIdx)];
    assert after.Keys == before.Keys + {camId};
    assert after[camId] == old'[key := samples];
    assert after == before[camId := old'[key := samples]];
  }

  lemma ListedAppend(lists: seq<NotTx>, l: NotTx, c: int, v: int, n: int)
    ensures Listed(lists + [l], c, v, n) <==>
      Listed(lists, c, v, n) || (l.camId == c && l.viewNum == v && n in l.sampleIds)
  {
    if Listed(lists, c, v, n) {
      var k :| k in lists && k.camId == c && k.viewNum == v && n in k.sampleIds;
      assert k in lists + [l];
    }
    if l.camId == c && l.viewNum == v && n in l.sampleIds {
      assert (lists + [l])[|lists|] == l;
    }
  }

  lemma AgreesStart(m: HybridMap, gop: int, earlier: seq<NotTx>, list: NotTx)
    requires gop > 0 && Agrees(m, gop, earlier)
    ensures Agrees(m, gop, earlier + [NotTx(list.camId, list.viewNum, list.sampleIds[..0])])
  {
    forall c, v, n
      ensures Listed(earlier + [NotTx(list.camId, list.viewNum, list.sampleIds[..0])], c, v, n)
        <==> Listed(earlier, c, v, n)
    {
      ListedAppend(earlier, NotTx(list.camId, list.viewNum, list.sampleIds[..0]), c, v, n);
    }
  }

  lemma AgreesStep(m: HybridMap, gop: int, earlier: seq<NotTx>, list: NotTx, i: nat)
    requires gop > 0 && i < |list.sampleIds|
    requires Agrees(m, gop, earlier + [NotTx(list.camId, list.viewNum, list.sampleIds[..i])])
    ensures Agrees(Record(m, gop, list.camId, list.viewNum, list.sampleIds[i]), gop,
                   earlier + [NotTx(list.camId, list.viewNum, list.sampleIds[..i + 1])])
  {
    var x := list.sampleIds[i];
    var t := Record(m, gop, list.camId, list.viewNum, x);
    var l := NotTx(list.camId, list.viewNum, list.sampleIds[..i]);
    var l' := NotTx(list.camId, list.viewNum, list.sampleIds[..i + 1]);
    assert l'.sampleIds == l.sampleIds + [x];
    forall c, v, n
      ensures Found(t, gop, c, v, n) <==> Listed(earlier + [l'], c, v, n)
      ensures Lookup(t, c, ViewKey(v, FrameType(n, gop)), n).Some? <==> Listed(earlier + [l'], c, v, n)
    {
      ListedAppend(earlier, l, c, v, n);
      ListedAppend(earlier, l', c, v, n);
      RecordLookup(m, gop, list.camId, list.viewNum, x, c, v, n);
      assert Found(m, gop, c, v, n) <==> Listed(earlier + [l], c, v, n);
    }
  }

  function RecordAll(gop: int, lists: seq<NotTx>): HybridMap
    requires gop > 0
  {
    if lists == [] then map[]
    else RecordList(RecordAll(gop, lists[..|lists| - 1]), gop, lists[|lists| - 1])
  }

  lemma {:induction false} RecordListAgrees(m: HybridMap, gop: int, earlier: seq<NotTx>, list: NotTx, i: nat)
    requires gop > 0 && Agrees(m, gop, earlier) && i <= |list.sampleIds|
    ensures var part := NotTx(list.camId, list.viewNum, list.sampleIds[..i]);
      Agrees(RecordList(m, gop, part), gop, earlier + [part])
  {
    if i == 0 {
      AgreesStart(m, gop, earlier, list);
    } else {
      RecordListAgrees(m, gop, earlier, list, i - 1);
      assert list.sampleIds[..i][..i - 1] == list.sampleIds[..i - 1];
      var before := RecordList(m, gop, NotTx(list.camId, list.viewNum, list.sampleIds[..i - 1]));
      AgreesStep(before, gop, earlier, list, i - 1);
    }
  }

  /** After any sequence of lists, a sample is found exactly when some list named it. */
  lemma {:induction false} FoundIffListed(gop: int, lists: seq<NotTx>)
    requires gop > 0
    ensures Agrees(RecordAll(gop, lists), gop, lists)
  {
    if lists != [] {
      var n := |lists| - 1;
      FoundIffListed(gop, lists[..n]);
      RecordListAgrees(RecordAll(gop, lists[..n]), gop, lists[..n], lists[n], |lists[n].sampleIds|);
      assert lists[n].sampleIds[..|lists[n].sampleIds|] == lists[n].sampleIds;
      assert lists == lists[..n] + [lists[n]];
    }
  }

  // ------------------------------------------------------------- meta packets

  function MetaFields(meta: HybridSampleMeta, camId: int, viewNum: int, frameType: string): seq<string>
  {
    [IntToString(camId), IntToString(viewNum), frameType, IntToString(meta.sampleNo),
     IntToString(meta.startOffset), IntToString(meta.len), IntToString(meta.timeStamp)]
  }

  /** makeStringForTx. */
  function MakeStringForTx(meta: HybridSampleMeta, camId: int, viewNum: int, frameType: string): string
  {
    PREFIX + Join(MetaFields(meta, camId, viewNum, frameType), COMMA)
  }

  function ToBytes(s: string): seq<byte>
  {
    seq(|s|, i requires 0 <= i < |s| => s[i] as int % 256)
  }

  function MetaBinary(meta: HybridSampleMeta, channel: byte, camId: int, viewNum: int, frameType: string): seq<byte>
  {
    var payload := MakeStringForTx(meta, camId, viewNum, frameType);
    [MARKER, channel, (|payload| / 256) % 256, |payload| % 256] + ToBytes(payload)
  }

  method RecordChannelInfo(data: array<byte>, channel: byte, len: nat)
    requires data.Length >= HEAD_LENGTH
    modifies data
    ensures data[..] == [MARKER, channel, (len / 256) % 256, len % 256] + old(data[HEAD_LENGTH..])
  {
    data[0] := MARKER;
    data[1] := channel;
    data[2] := (len / 256) % 256;
    data[3] := len % 256;
  }

  method RecordPayLoad(data: array<byte>, payload: string)
    requires data.Length == HEAD_LENGTH + |payload|
    modifies data
    ensures data[..] == old(data[..HEAD_LENGTH]) + ToBytes(payload)
  {
    var i := HEAD_LENGTH;
    while i < data.Length
      invariant HEAD_LENGTH <= i <= data.Length
      invariant data[..HEAD_LENGTH] == old(data[..HEAD_LENGTH])
      invariant forall k :: HEAD_LENGTH <= k < i ==> data[k] == ToBytes(payload)[k - HEAD_LENGTH]
    {
      data[i] := payload[i - HEAD_LENGTH] as int % 256;
      i := i + 1;
    }
  }

  method GetHybridMetaBinary(meta: HybridSampleMeta, channel: byte, camId: int, viewNum: int, frameType: string)
    returns (binary: seq<byte>)
    ensures binary == MetaBinary(meta, channel, camId, viewNum, frameType)
  {
    var payload := MakeStringForTx(meta, camId, viewNum, frameType);
    var data := new byte[HEAD_LENGTH + |payload|];
    RecordChannelInfo(data, channel, |payload|);
    RecordPayLoad(data, payload);
    binary := data[..];
  }

  predicate MetaInRange(meta: HybridSampleMeta)
  {
    Int32(meta.sampleNo) && Int64(meta.startOffset) && Int64(meta.len) && Int64(meta.timeStamp)
  }

  lemma IntLength(n: int)
    ensures Int32(n) ==> |IntToString(n)| <= 11
    ensures Int64(n) ==> |IntToString(n)| <= 20
  {
    var a := if n < 0 then -n else n;
    assert Pow10(10) == 1_00000_00000 && Pow10(19) == 10_000_000_000_000_000_000 by {
      assert Pow10(5) == 100000;
      assert Pow10(10) == 1_00000_00000;
      assert Pow10(15) == 1_00000_00000_00000;
    }
    if Int32(n) { NatLength(a, 10); }
    if Int64(n) { NatLength(a, 19); }
  }

  lemma JoinLength7(t: seq<string>)
    requires |t| == 7
    ensures |Join(t, COMMA)| == |t[0]| + |t[1]| + |t[2]| + |t[3]| + |t[4]| + |t[5]| + |t[6]| + 6
  {
    JoinLengthStep(t);
    JoinLengthStep(t[1..]);
    JoinLengthStep(t[2..]);
    JoinLengthStep(t[3..]);
    JoinLengthStep(t[4..]);
    JoinLengthStep(t[5..]);
    assert t[1..][1..] == t[2..] && t[2..][1..] == t[3..] && t[3..][1..] == t[4..];
    assert t[4..][1..] == t[5..] && t[5..][1..] == t[6..];
  }

  lemma JoinLengthStep(t: seq<string>)
    requires |t| > 1
    ensures |Join(t, COMMA)| == |t[0]| + 1 + |Join(t[1..], COMMA)|
  {
  }

  /** A meta packet's length always fits its 16-bit field, so a receiver can frame it. */
  lemma MetaBinaryIsValidUnit(meta: HybridSampleMeta, channel: byte, camId: int, viewNum: int, frameType: string)
    requires MetaInRange(meta) && Int32(camId) && Int32(viewNum) && |frameType| == 1
    ensures |MakeStringForTx(meta, camId, viewNum, frameType)| <= 6 + 33 + 60 + 1 + 6
    ensures ValidUnit(MetaBinary(meta, channel, camId, viewNum, frameType))
  {
    IntLength(camId);
    IntLength(viewNum);
    IntLength(meta.sampleNo);
    IntLength(meta.startOffset);
    IntLength(meta.len);
    IntLength(meta.timeStamp);
    JoinLength7(MetaFields(meta, camId, viewNum, frameType));
  }

  datatype Decoded = Decoded(camId: int, viewNum: int, frameType: string, meta: HybridSampleMeta)

  function PayloadText(binary: seq<byte>): string
    requires |binary| >= HEAD_LENGTH
  {
    seq(|binary| - HEAD_LENGTH, i requires 0 <= i < |binary| - HEAD_LENGTH => binary[HEAD_LENGTH + i] as char)
  }

  function DecodeFields(f: seq<string>): Option<Decoded>
  {
    if |f| != 7 || !(IsInt(f[0]) && IsInt(f[1]) && IsInt(f[3]) && IsInt(f[4]) && IsInt(f[5]) && IsInt(f[6])) then None
    else Some(Decoded(ParseInt(f[0]), ParseInt(f[1]), f[2],
                      HybridSampleMeta(ParseInt(f[3]), ParseInt(f[4]), ParseInt(f[5]), ParseInt(f[6]))))
  }

  /** What the client can read out of a meta packet. */
  function DecodeMeta(binary: seq<byte>): Option<Decoded>
  {
    if |binary| < HEAD_LENGTH + |PREFIX| then None
    else DecodeFields(SplitFrom(PayloadText(binary), COMMA, |PREFIX|))
  }

  predicate PlainText(s: string)
  {
    forall i :: 0 <= i < |s| ==> s[i] as int < 128
  }

  lemma FieldIsPlain(n: int)
    ensures PlainText(IntToString(n)) && COMMA[0] !in IntToString(n)
  {
    IntIsPlain(n);
  }

  lemma {:induction false} JoinIsPlain(t: seq<string>)
    requires forall i :: 0 <= i < |t| ==> PlainText(t[i])
    ensures PlainText(Join(t, COMMA))
  {
    if |t| > 1 { JoinIsPlain(t[1..]); }
  }

  /** Every field of a meta packet is recovered from its bytes. */
  lemma MetaRoundTrip(meta: HybridSampleMeta, channel: byte, camId: int, viewNum: int, frameType: string)
    requires frameType == KEY_FRAME_TYPE || frameType == P_FRAME_TYPE
    ensures DecodeMeta(MetaBinary(meta, channel, camId, viewNum, frameType))
      == Some(Decoded(camId, viewNum, frameType, meta))
  {
    var f := MetaFields(meta, camId, viewNum, frameType);
    var payload := PREFIX + Join(f, COMMA);
    FieldsArePlain(meta, camId, viewNum, frameType);
    JoinIsPlain(f);
    PayloadTextOf(payload, channel);
    assert payload[|PREFIX|..] == Join(f, COMMA);
    JoinSpells(payload, |PREFIX|, f, COMMA);
    SplitOfJoin(payload, |PREFIX|, f, COMMA);
    FieldsRoundTrip(meta, camId, viewNum, frameType);
  }

  lemma PayloadTextOf(payload: string, channel: byte)
    requires PlainText(payload)
    ensures PayloadText([MARKER, channel, (|payload| / 256) % 256, |payload| % 256] + ToBytes(payload)) == payload
  {
  }

  predicate Prints(s: string, n: int)
  {
    IsInt(s) && ParseInt(s) == n
  }

  lemma DecodeOf(a: string, b: string, t: string, c: string, e: string, g: string, k: string, d: Decoded)
    requires Prints(a, d.camId) && Prints(b, d.viewNum) && t == d.frameType && Prints(c, d.meta.sampleNo)
    requires Prints(e, d.meta.startOffset) && Prints(g, d.meta.len) && Prints(k, d.meta.timeStamp)
    ensures DecodeFields([a, b, t, c, e, g, k]) == Some(d)
  {
  }

  lemma FieldsRoundTrip(meta: HybridSampleMeta, camId: int, viewNum: int, frameType: string)
    ensures DecodeFields(MetaFields(meta, camId, viewNum, frameType))
      == Some(Decoded(camId, viewNum, frameType, meta))
  {
    forall n: int ensures Prints(IntToString(n), n) {
      IntRoundTrip(n);
    }
    DecodeOf(IntToString(camId), IntToString(viewNum), frameType, IntToString(meta.sampleNo),
             IntToString(meta.startOffset), IntToString(meta.len), IntToString(meta.timeStamp),
             Decoded(camId, viewNum, frameType, meta));
  }

  lemma FieldsArePlain(meta: HybridSampleMeta, camId: int, viewNum: int, frameType: string)
    requires frameType == KEY_FRAME_TYPE || frameType == P_FRAME_TYPE
    ensures var f := MetaFields(meta, camId, viewNum, frameType);
      forall i :: 0 <= i < |f| ==> PlainText(f[i]) && COMMA[0] !in f[i]
  {
    FieldIsPlain(camId);
    FieldIsPlain(viewNum);
    FieldIsPlain(meta.sampleNo);
    FieldIsPlain(meta.startOffset);
    FieldIsPlain(meta.len);
    FieldIsPlain(meta.timeStamp);
  }
}
