/**
 * The self-contained logic of the index node's build task
 * (internal/indexnode/task.go): flattening the request's type and index
 * parameters, the decision of how the stored IndexMeta record changes, the
 * one-field check after loading, and the size and file paths recorded when
 * saving the built index.
 */
module IndexNode {
  import opened Wrappers
  import opened Sets

  /** The key whose value is itself a serialized parameter map. */
  const ParamsKeyToParse: string := "params"

  const DuplicatedTypeParamMsg: string := "duplicated key in type params"
  const DuplicatedIndexParamMsg: string := "duplicated key in index params"
  const OneFieldExpectedMsg: string := "we expect only one field in deserialized insert data"

  type UniqueID = int
  type FieldID = int

  datatype KeyValuePair = KeyValuePair(key: string, value: string)

  type Params = map<string, string>

  /** The parser of a "params" value; a failure carries its error message. */
  type ParamsParser = string -> Result<Params, string>

  // ---------------------------------------------------------------------------
  // Parameter flattening (executePrepareParams)
  // ---------------------------------------------------------------------------

  /**
   * One iteration of the flattening loop: a key already in the map is an
   * error; "params" is parsed and every parsed pair is written over the map;
   * any other key is inserted with its value.
   */
  function FlattenStep(acc: Result<Params, string>, kv: KeyValuePair, parse: ParamsParser, dupMsg: string): Result<Params, string>
  {
    if acc.Failure? then acc
    else if kv.key in acc.value then Failure(dupMsg)
    else if kv.key == ParamsKeyToParse then
      match parse(kv.value)
      case Failure(e) => Failure(e)
      case Success(p) => Success(acc.value + p)
    else Success(acc.value[kv.key := kv.value])
  }

  /** The map that the loop over `pairs` builds, or the error it stops at. */
  function FlattenParams(pairs: seq<KeyValuePair>, parse: ParamsParser, dupMsg: string): Result<Params, string>
  {
    if pairs == [] then Success(map[])
    else FlattenStep(FlattenParams(pairs[..|pairs| - 1], parse, dupMsg), pairs[|pairs| - 1], parse, dupMsg)
  }

  predicate DistinctKeys(pairs: seq<KeyValuePair>)
  {
    forall i, j :: 0 <= i < j < |pairs| ==> pairs[i].key != pairs[j].key
  }

  predicate NoParamsKey(pairs: seq<KeyValuePair>)
  {
    forall i :: 0 <= i < |pairs| ==> pairs[i].key != ParamsKeyToParse
  }

  /** Without a "params" key, a successful flattening maps exactly the given keys, each to its own value. */
  lemma {:induction false} PlainPairsVerbatim(pairs: seq<KeyValuePair>, parse: ParamsParser, dupMsg: string)
    requires NoParamsKey(pairs) && FlattenParams(pairs, parse, dupMsg).Success?
    ensures FlattenParams(pairs, parse, dupMsg).value.Keys == (set i | 0 <= i < |pairs| :: pairs[i].key)
    ensures forall i :: 0 <= i < |pairs| ==> FlattenParams(pairs, parse, dupMsg).value[pairs[i].key] == pairs[i].value
  {
    if pairs != [] {
      var n := |pairs| - 1;
      var init := pairs[..n];
      assert forall i :: 0 <= i < n ==> init[i] == pairs[i];
      PlainPairsVerbatim(init, parse, dupMsg);
    }
  }

  /** Without a "params" key, flattening succeeds exactly when no key is repeated. */
  lemma {:induction false} PlainPairsSucceedIffDistinct(pairs: seq<KeyValuePair>, parse: ParamsParser, dupMsg: string)
    requires NoParamsKey(pairs)
    ensures FlattenParams(pairs, parse, dupMsg).Success? <==> DistinctKeys(pairs)
  {
    if pairs != [] {
      var n := |pairs| - 1;
      var init := pairs[..n];
      assert forall i :: 0 <= i < n ==> init[i] == pairs[i];
      PlainPairsSucceedIffDistinct(init, parse, dupMsg);
      var acc := FlattenParams(init, parse, dupMsg);
      if acc.Success? {
        PlainPairsVerbatim(init, parse, dupMsg);
        if pairs[n].key in acc.value {
          var i :| 0 <= i < n && init[i].key == pairs[n].key;
          assert pairs[i].key == pairs[n].key;
        }
      }
    }
  }

  /** Once the loop has failed, the rest of the pairs cannot change the error. */
  lemma {:induction false} FailurePersists(pairs: seq<KeyValuePair>, parse: ParamsParser, dupMsg: string, k: nat)
    requires k <= |pairs| && FlattenParams(pairs[..k], parse, dupMsg).Failure?
    ensures FlattenParams(pairs, parse, dupMsg) == FlattenParams(pairs[..k], parse, dupMsg)
    decreases |pairs|
  {
    if k < |pairs| {
      var n := |pairs| - 1;
      assert pairs[..n][..k] == pairs[..k];
      FailurePersists(pairs[..n], parse, dupMsg, k);
    } else {
      assert pairs[..k] == pairs;
    }
  }

  /** Keys only accumulate: a key present after k pairs is present at the end, unless the loop fails. */
  lemma {:induction false} KeysOnlyGrow(pairs: seq<KeyValuePair>, parse: ParamsParser, dupMsg: string, k: nat, key: string)
    requires k <= |pairs|
    requires FlattenParams(pairs[..k], parse, dupMsg).Success? && key in FlattenParams(pairs[..k], parse, dupMsg).value
    requires FlattenParams(pairs, parse, dupMsg).Success?
    ensures key in FlattenParams(pairs, parse, dupMsg).value
    decreases |pairs|
  {
    if k < |pairs| {
      var n := |pairs| - 1;
      assert pairs[..n][..k] == pairs[..k];
      KeysOnlyGrow(pairs[..n], parse, dupMsg, k, key);
    } else {
      assert pairs[..k] == pairs;
    }
  }

  /**
   * A key that meets a map already holding it is a duplicate, whether it was
   * inserted by an earlier pair or produced by expanding an earlier "params".
   */
  lemma PresentKeyFails(pairs: seq<KeyValuePair>, parse: ParamsParser, dupMsg: string, j: nat)
    requires j < |pairs|
    requires FlattenParams(pairs[..j], parse, dupMsg).Success? && pairs[j].key in FlattenParams(pairs[..j], parse, dupMsg).value
    ensures FlattenParams(pairs, parse, dupMsg) == Failure(dupMsg)
  {
    assert pairs[..j + 1][..j] == pairs[..j];
    FailurePersists(pairs, parse, dupMsg, j + 1);
  }

  /** A plain key given twice makes flattening fail with the duplicate error, or an earlier error. */
  lemma DuplicatePlainKeyFails(pairs: seq<KeyValuePair>, parse: ParamsParser, dupMsg: string, i: nat, j: nat)
    requires i < j < |pairs| && pairs[i].key == pairs[j].key && pairs[i].key != ParamsKeyToParse
    ensures FlattenParams(pairs, parse, dupMsg).Failure?
    ensures FlattenParams(pairs[..j], parse, dupMsg).Success? ==> FlattenParams(pairs, parse, dupMsg) == Failure(dupMsg)
  {
    var upToJ := pairs[..j];
    if FlattenParams(upToJ, parse, dupMsg).Failure? {
      FailurePersists(pairs, parse, dupMsg, j);
    } else {
      assert upToJ[..i + 1][..i] == upToJ[..i] == pairs[..i];
      assert upToJ[..i + 1] == pairs[..i + 1];
      assert upToJ[i] == pairs[i];
      if FlattenParams(upToJ[..i + 1], parse, dupMsg).Failure? {
        FailurePersists(upToJ, parse, dupMsg, i + 1);
      }
      KeysOnlyGrow(upToJ, parse, dupMsg, i + 1, pairs[i].key);
      PresentKeyFails(pairs, parse, dupMsg, j);
    }
  }

  /**
   * An example of ExpansionOverwrites and PresentKeyFails together: an
   * expansion overwrites an earlier plain "dim", while "dim" after the
   * expansion is a duplicate.
   */
  lemma ExpansionOrderMatters(parse: ParamsParser, dupMsg: string, v: string)
    requires parse(v) == Success(map["dim" := "16"])
    ensures FlattenParams([KeyValuePair("dim", "8"), KeyValuePair(ParamsKeyToParse, v)], parse, dupMsg)
      == Success(map["dim" := "16"])
    ensures FlattenParams([KeyValuePair(ParamsKeyToParse, v), KeyValuePair("dim", "8")], parse, dupMsg)
      == Failure(dupMsg)
  {
    var a := [KeyValuePair("dim", "8"), KeyValuePair(ParamsKeyToParse, v)];
    assert a[..1][..0] == [];
    assert a[..1] == [KeyValuePair("dim", "8")];
    assert FlattenParams(a[..1], parse, dupMsg) == Success(map["dim" := "8"]);
    assert map["dim" := "8"] + map["dim" := "16"] == map["dim" := "16"];
    var b := [KeyValuePair(ParamsKeyToParse, v), KeyValuePair("dim", "8")];
    assert b[..1][..0] == [];
    assert b[..1] == [KeyValuePair(ParamsKeyToParse, v)];
    var empty: Params := map[];
    assert empty + map["dim" := "16"] == map["dim" := "16"];
    assert "dim" != ParamsKeyToParse;
    assert FlattenParams(b[..1], parse, dupMsg) == Success(map["dim" := "16"]);
  }

  /**
   * A "params" pair after a successful prefix: it is a duplicate if an earlier
   * pair already produced the key "params"; otherwise a parse error stops the
   * loop with that error, and parsed pairs are written over the map, replacing
   * earlier values of the same keys without complaint.
   */
  lemma ExpansionOverwrites(pairs: seq<KeyValuePair>, parse: ParamsParser, dupMsg: string, v: string, m: Params)
    requires FlattenParams(pairs, parse, dupMsg) == Success(m)
    ensures var r := FlattenParams(pairs + [KeyValuePair(ParamsKeyToParse, v)], parse, dupMsg);
      && (ParamsKeyToParse in m ==> r == Failure(dupMsg))
      && (ParamsKeyToParse !in m && parse(v).Failure? ==> r == Failure(parse(v).error))
      && (ParamsKeyToParse !in m && parse(v).Success? ==> r == Success(m + parse(v).value))
  {
    var q := pairs + [KeyValuePair(ParamsKeyToParse, v)];
    assert q[..|q| - 1] == pairs;
  }

  /** The inner loop of executePrepareParams: every parsed pair is written over the map. */
  method MergeParams(m: Params, p: Params) returns (merged: Params)
    ensures merged == m + p
  {
    merged := m;
    var rest := p.Keys;
    while rest != {}
      invariant rest <= p.Keys
      invariant merged.Keys == m.Keys + (p.Keys - rest)
      invariant forall k :: k in p && k !in rest ==> merged[k] == p[k]
      invariant forall k :: k in m && (k !in p || k in rest) ==> merged[k] == m[k]
      decreases rest
    {
      ghost var w := SomeElement(rest);
      var pk :| pk in rest;
      merged := merged[pk := p[pk]];
      rest := rest - {pk};
    }
  }

  /** The flattening loop of executePrepareParams, for one list of pairs. */
  method BuildParams(pairs: seq<KeyValuePair>, parse: ParamsParser, dupMsg: string) returns (r: Result<Params, string>)
    ensures r == FlattenParams(pairs, parse, dupMsg)
  {
    var m: Params := map[];
    for i := 0 to |pairs|
      invariant FlattenParams(pairs[..i], parse, dupMsg) == Success(m)
    {
      var kv := pairs[i];
      assert pairs[..i + 1][..i] == pairs[..i];
      if kv.key in m {
        FailurePersists(pairs, parse, dupMsg, i + 1);
        return Failure(dupMsg);
      }
      if kv.key == ParamsKeyToParse {
        var parsed := parse(kv.value);
        if parsed.Failure? {
          FailurePersists(pairs, parse, dupMsg, i + 1);
          return Failure(parsed.error);
        }
        m := MergeParams(m, parsed.value);
      } else {
        m := m[kv.key := kv.value];
      }
    }
    assert pairs[..|pairs|] == pairs;
    return Success(m);
  }

  // ---------------------------------------------------------------------------
  // The IndexMeta decision (checkIndexMeta)
  // ---------------------------------------------------------------------------

  datatype IndexState = IndexStateNone | Unissued | InProgress | Finished | Failed | Retry

  datatype IndexMeta = IndexMeta(
    indexBuildID: UniqueID,
    version: int,
    state: IndexState,
    markDeleted: bool,
    indexFilePaths: seq<string>,
    serializeSize: nat,
    failReason: string)

  /**
   * How checkIndexMeta treats the stored record: leave it; mark it finished
   * and report the deletion as an error; pass a pre-check; or write the
   * outcome of the build.
   */
  datatype MetaDecision =
    | Skip
    | Deleted(written: IndexMeta)
    | PreChecked
    | Update(written: IndexMeta)

  function DecideIndexMeta(meta: IndexMeta, reqVersion: int, pre: bool, savePaths: seq<string>,
                           serializedSize: nat, err: Option<string>, internalErr: Option<string>): MetaDecision
  {
    if meta.version > reqVersion || meta.state == Finished then Skip
    else if meta.markDeleted then Deleted(meta.(state := Finished))
    else if pre then PreChecked
    else
      var m := meta.(indexFilePaths := savePaths, state := Finished, serializeSize := serializedSize);
      if err.Some? then Update(m.(state := Failed, failReason := err.value))
      else if internalErr.Some? then Update(m.(state := Unissued))
      else Update(m)
  }

  /**
   * A record that is newer than the request, or already finished, is never
   * written; every write keeps the record's identity and version.
   */
  lemma NoWriteOverNewerOrFinished(meta: IndexMeta, reqVersion: int, pre: bool, savePaths: seq<string>,
                                   serializedSize: nat, err: Option<string>, internalErr: Option<string>)
    ensures var d := DecideIndexMeta(meta, reqVersion, pre, savePaths, serializedSize, err, internalErr);
      && (d.Skip? <==> meta.version > reqVersion || meta.state == Finished)
      && ((d.Deleted? || d.Update?) ==>
            meta.version <= reqVersion && meta.state != Finished &&
            d.written.indexBuildID == meta.indexBuildID && d.written.version == meta.version &&
            d.written.markDeleted == meta.markDeleted)
  {
  }

  /** A live record marked deleted is finished, with nothing else changed, before any pre/post handling. */
  lemma DeletionWins(meta: IndexMeta, reqVersion: int, pre: bool, savePaths: seq<string>,
                     serializedSize: nat, err: Option<string>, internalErr: Option<string>)
    requires meta.version <= reqVersion && meta.state != Finished
    ensures var d := DecideIndexMeta(meta, reqVersion, pre, savePaths, serializedSize, err, internalErr);
      && (d.Deleted? <==> meta.markDeleted)
      && (d.Deleted? ==> d.written.state == Finished && d.written.(state := meta.state) == meta)
  {
  }

  /** A pre-check never writes the build outcome. */
  lemma PreCheckWritesNoOutcome(meta: IndexMeta, reqVersion: int, savePaths: seq<string>,
                                serializedSize: nat, err: Option<string>, internalErr: Option<string>)
    ensures !DecideIndexMeta(meta, reqVersion, true, savePaths, serializedSize, err, internalErr).Update?
  {
  }

  /**
   * A post-check records the saved paths and size; the state is Failed with
   * the error's text if the task failed, else Unissued (to be retried) on an
   * internal error, else Finished.
   */
  lemma PostCheckOutcome(meta: IndexMeta, reqVersion: int, savePaths: seq<string>,
                         serializedSize: nat, err: Option<string>, internalErr: Option<string>)
    requires meta.version <= reqVersion && meta.state != Finished && !meta.markDeleted
    ensures var d := DecideIndexMeta(meta, reqVersion, false, savePaths, serializedSize, err, internalErr);
      && d.Update?
      && d.written.indexFilePaths == savePaths
      && d.written.serializeSize == serializedSize
      && d.written.state == (if err.Some? then Failed else if internalErr.Some? then Unissued else Finished)
      && d.written.failReason == (if err.Some? then err.value else meta.failReason)
      && d.written.(indexFilePaths := meta.indexFilePaths, serializeSize := meta.serializeSize,
                    state := meta.state, failReason := meta.failReason) == meta
  {
  }

  // ---------------------------------------------------------------------------
  // Save paths
  // ---------------------------------------------------------------------------

  function DigitChar(d: nat): char
    requires d < 10
  {
    ('0' as int + d) as char
  }

  /** Decimal digits of `n`, most significant first, without leading zeros. */
  function NatToDecimal(n: nat): (s: string)
    ensures |s| >= 1
    ensures forall i :: 0 <= i < |s| ==> '0' <= s[i] <= '9'
  {
    if n < 10 then [DigitChar(n)] else NatToDecimal(n / 10) + [DigitChar(n % 10)]
  }

  /** strconv.Itoa: decimal digits, with a leading '-' for negative numbers. */
  function Itoa(n: int): (s: string)
    ensures |s| >= 1 && '/' !in s
  {
    if n < 0 then "-" + NatToDecimal(-n) else NatToDecimal(n)
  }

  /** The value of a string of decimal digits. */
  function DecimalValue(s: string): int
  {
    if s == [] then 0 else DecimalValue(s[..|s| - 1]) * 10 + (s[|s| - 1] as int - '0' as int)
  }

  /** strconv.Atoi on the strings Itoa produces. */
  function Atoi(s: string): int
  {
    if |s| > 0 && s[0] == '-' then -DecimalValue(s[1..]) else DecimalValue(s)
  }

  lemma DivModTen(n: nat)
    ensures (n / 10) * 10 + n % 10 == n
  {
  }

  lemma {:induction false} DecimalRoundTrip(n: nat)
    ensures DecimalValue(NatToDecimal(n)) == n
    decreases n
  {
    if n >= 10 {
      var s := NatToDecimal(n);
      DecimalRoundTrip(n / 10);
      assert s[..|s| - 1] == NatToDecimal(n / 10);
      DivModTen(n);
    }
  }

  /** Itoa is inverted by Atoi. */
  lemma ItoaRoundTrip(n: int)
    ensures Atoi(Itoa(n)) == n
  {
    if n < 0 {
      DecimalRoundTrip(-n);
      assert Itoa(n)[1..] == NatToDecimal(-n);
    } else {
      DecimalRoundTrip(n);
    }
  }

  /** path.Join without cleaning: the non-empty elements, separated by '/'. */
  function JoinPath(elems: seq<string>): string
  {
    if elems == [] then ""
    else
      var init := JoinPath(elems[..|elems| - 1]);
      var last := elems[|elems| - 1];
      if last == "" then init else if init == "" then last else init + "/" + last
  }

  /** The segments of a path between its '/' separators. */
  function SplitPath(s: string): (parts: seq<string>)
    ensures |parts| >= 1
  {
    if s == [] then [""]
    else
      SplitStep(SplitPath(s[..|s| - 1]), s[|s| - 1])
  }

  /** One more character: a separator opens a new segment, any other character extends the last one. */
  function SplitStep(init: seq<string>, c: char): (parts: seq<string>)
    requires |init| >= 1
    ensures |parts| >= 1
  {
    if c == '/' then init + [""] else init[..|init| - 1] + [init[|init| - 1] + [c]]
  }

  predicate PathSegment(s: string)
  {
    s != "" && '/' !in s
  }

  lemma {:induction false} SplitSegment(s: string)
    requires '/' !in s
    ensures SplitPath(s) == [s]
  {
    if s != [] {
      SplitSegment(s[..|s| - 1]);
      assert s[..|s| - 1] + [s[|s| - 1]] == s;
    }
  }

  /** A separator ends the segments of the left part and starts those of the right part. */
  lemma {:induction false} SplitConcat(a: string, b: string)
    ensures SplitPath(a + "/" + b) == SplitPath(a) + SplitPath(b)
    decreases |b|
  {
    if b == [] {
      SplitSnoc(a, '/');
      assert a + "/" + b == a + ['/'];
    } else {
      var b' := b[..|b| - 1];
      SplitConcat(a, b');
      SplitConcatStep(a, b', b[|b| - 1]);
      assert b' + [b[|b| - 1]] == b;
    }
  }

  /** The inductive step of SplitConcat: one more character on the right. */
  lemma SplitConcatStep(a: string, b: string, c: char)
    requires SplitPath(a + "/" + b) == SplitPath(a) + SplitPath(b)
    ensures SplitPath(a + "/" + (b + [c])) == SplitPath(a) + SplitPath(b + [c])
  {
    var s := a + "/" + b;
    assert a + "/" + (b + [c]) == s + [c];
    calc {
      SplitPath(s + [c]);
      { SplitSnoc(s, c); }
      SplitStep(SplitPath(a) + SplitPath(b), c);
      { SplitStepAppend(SplitPath(a), SplitPath(b), c); }
      SplitPath(a) + SplitStep(SplitPath(b), c);
      { SplitSnoc(b, c); }
      SplitPath(a) + SplitPath(b + [c]);
    }
  }

  lemma SplitSnoc(s: string, c: char)
    ensures SplitPath(s + [c]) == SplitStep(SplitPath(s), c)
  {
    assert (s + [c])[..|s|] == s;
  }

  /** A step on x + y only touches the part y. */
  lemma SplitStepAppend(x: seq<string>, y: seq<string>, c: char)
    requires |y| >= 1
    ensures SplitStep(x + y, c) == x + SplitStep(y, c)
  {
    var xy := x + y;
    assert xy[..|xy| - 1] == x + y[..|y| - 1];
  }

  /** Splitting a joined path gives back its segments. */
  lemma {:induction false} SplitJoinRoundTrip(elems: seq<string>)
    requires |elems| >= 1 && forall i :: 0 <= i < |elems| ==> PathSegment(elems[i])
    ensures SplitPath(JoinPath(elems)) == elems
  {
    var n := |elems| - 1;
    var init := elems[..n];
    if n == 0 {
      assert init == [];
      SplitSegment(elems[0]);
    } else {
      assert forall i :: 0 <= i < n ==> init[i] == elems[i];
      SplitJoinRoundTrip(init);
      assert JoinPath(init) != "";
      SplitConcat(JoinPath(init), elems[n]);
      SplitSegment(elems[n]);
      assert init + [elems[n]] == elems;
    }
  }

  /** The layout of the file a serialized index blob is saved under. */
  function SavePath(root: string, buildID: UniqueID, version: int, partitionID: UniqueID, segmentID: UniqueID, key: string): string
  {
    JoinPath([root, Itoa(buildID), Itoa(version), Itoa(partitionID), Itoa(segmentID), key])
  }

  /**
   * A save path is root/buildID/version/partitionID/segmentID/key, for any
   * root, the root and the key being dropped when they are empty.
   */
  lemma SavePathLayout(root: string, buildID: UniqueID, version: int, partitionID: UniqueID, segmentID: UniqueID, key: string)
    ensures SavePath(root, buildID, version, partitionID, segmentID, key)
      == (if root == "" then "" else root + "/") + Itoa(buildID) + "/" + Itoa(version) + "/" + Itoa(partitionID)
         + "/" + Itoa(segmentID) + (if key == "" then "" else "/" + key)
  {
    var e := [root, Itoa(buildID), Itoa(version), Itoa(partitionID), Itoa(segmentID), key];
    assert e[..1][..0] == [];
    assert JoinPath(e[..1]) == root;
    assert e[..2][..1] == e[..1];
    var p1 := (if root == "" then "" else root + "/") + Itoa(buildID);
    assert JoinPath(e[..2]) == p1;
    assert e[..3][..2] == e[..2];
    assert JoinPath(e[..3]) == p1 + "/" + Itoa(version);
    assert e[..4][..3] == e[..3];
    assert JoinPath(e[..4]) == p1 + "/" + Itoa(version) + "/" + Itoa(partitionID);
    assert e[..5][..4] == e[..4];
    assert JoinPath(e[..5]) == p1 + "/" + Itoa(version) + "/" + Itoa(partitionID) + "/" + Itoa(segmentID);
    assert e[..5] == e[..|e| - 1];
  }

  /** The segments of the root, none for an empty root. */
  function RootSegments(root: string): seq<string>
  {
    if root == "" then [] else SplitPath(root)
  }

  /** A slash-free segment after a separator becomes the last segment. */
  lemma SplitAppendSegment(p: string, segment: string)
    requires '/' !in segment
    ensures SplitPath(p + "/" + segment) == SplitPath(p) + [segment]
  {
    SplitConcat(p, segment);
    SplitSegment(segment);
  }

  /** The root, when present, contributes its own segments before the build id's. */
  lemma SplitRootAndId(root: string, id: string)
    requires '/' !in id
    ensures SplitPath((if root == "" then "" else root + "/") + id) == RootSegments(root) + [id]
  {
    if root == "" {
      assert "" + id == id;
      SplitSegment(id);
    } else {
      SplitAppendSegment(root, id);
    }
  }

  lemma SplitThreeSegments(p: string, x: string, y: string, z: string)
    requires '/' !in x && '/' !in y && '/' !in z
    ensures SplitPath(p + "/" + x + "/" + y + "/" + z) == SplitPath(p) + [x, y, z]
  {
    SplitAppendSegment(p, x);
    SplitAppendSegment(p + "/" + x, y);
    SplitAppendSegment(p + "/" + x + "/" + y, z);
  }

  /** Splitting a save path gives the root's segments, the four ids in decimal and the key's segments. */
  lemma SavePathSplit(root: string, buildID: UniqueID, version: int, partitionID: UniqueID, segmentID: UniqueID, key: string)
    ensures SplitPath(SavePath(root, buildID, version, partitionID, segmentID, key))
      == RootSegments(root) + [Itoa(buildID), Itoa(version), Itoa(partitionID), Itoa(segmentID)]
         + (if key == "" then [] else SplitPath(key))
  {
    var i1, i2, i3, i4 := Itoa(buildID), Itoa(version), Itoa(partitionID), Itoa(segmentID);
    var p1 := (if root == "" then "" else root + "/") + i1;
    SplitRootAndId(root, i1);
    var p4 := p1 + "/" + i2 + "/" + i3 + "/" + i4;
    SplitThreeSegments(p1, i2, i3, i4);
    var ids := RootSegments(root) + [i1, i2, i3, i4];
    assert SplitPath(p4) == ids;
    SavePathLayout(root, buildID, version, partitionID, segmentID, key);
    if key != "" {
      assert SavePath(root, buildID, version, partitionID, segmentID, key) == p4 + "/" + key;
      SplitConcat(p4, key);
    } else {
      assert SavePath(root, buildID, version, partitionID, segmentID, key) == p4;
      assert ids + [] == ids;
    }
  }

  /** The ids of a save path read back from the four segments after the root's. */
  lemma SavePathSegments(root: string, buildID: UniqueID, version: int, partitionID: UniqueID, segmentID: UniqueID, key: string)
    ensures var parts := SplitPath(SavePath(root, buildID, version, partitionID, segmentID, key));
      var r := |RootSegments(root)|;
      && r + 4 <= |parts|
      && Atoi(parts[r]) == buildID && Atoi(parts[r + 1]) == version
      && Atoi(parts[r + 2]) == partitionID && Atoi(parts[r + 3]) == segmentID
  {
    var parts := SplitPath(SavePath(root, buildID, version, partitionID, segmentID, key));
    var ids := [Itoa(buildID), Itoa(version), Itoa(partitionID), Itoa(segmentID)];
    SavePathSplit(root, buildID, version, partitionID, segmentID, key);
    var rootParts := RootSegments(root);
    var tail := if key == "" then [] else SplitPath(key);
    assert parts == rootParts + ids + tail;
    var r := |rootParts|;
    assert parts[r] == ids[0] && parts[r + 1] == ids[1] && parts[r + 2] == ids[2] && parts[r + 3] == ids[3];
    ItoaRoundTrip(buildID);
    ItoaRoundTrip(version);
    ItoaRoundTrip(partitionID);
    ItoaRoundTrip(segmentID);
  }

  /**
   * With a slash-free key, whatever the root, the key is the last segment of
   * the save path and the ids are the four segments before it.
   */
  lemma SavePathIdsFromEnd(root: string, buildID: UniqueID, version: int, partitionID: UniqueID, segmentID: UniqueID, key: string)
    requires PathSegment(key)
    ensures var parts := SplitPath(SavePath(root, buildID, version, partitionID, segmentID, key));
      && |parts| >= 5 && parts[|parts| - 1] == key
      && Atoi(parts[|parts| - 5]) == buildID && Atoi(parts[|parts| - 4]) == version
      && Atoi(parts[|parts| - 3]) == partitionID && Atoi(parts[|parts| - 2]) == segmentID
  {
    var parts := SplitPath(SavePath(root, buildID, version, partitionID, segmentID, key));
    var ids := [Itoa(buildID), Itoa(version), Itoa(partitionID), Itoa(segmentID)];
    SavePathSplit(root, buildID, version, partitionID, segmentID, key);
    SplitSegment(key);
    var rootParts := RootSegments(root);
    assert parts == rootParts + ids + [key];
    var n := |parts|;
    assert n == |rootParts| + 5;
    assert parts[n - 1] == key;
    assert parts[n - 5] == ids[0] && parts[n - 4] == ids[1] && parts[n - 3] == ids[2] && parts[n - 2] == ids[3];
    ItoaRoundTrip(buildID);
    ItoaRoundTrip(version);
    ItoaRoundTrip(partitionID);
    ItoaRoundTrip(segmentID);
  }

  // ---------------------------------------------------------------------------
  // Serialized size
  // ---------------------------------------------------------------------------

  datatype Blob = Blob(key: string, value: seq<bv8>)

  /** The total number of value bytes of the blobs. */
  function TotalValueBytes(blobs: seq<Blob>): nat
  {
    if blobs == [] then 0 else TotalValueBytes(blobs[..|blobs| - 1]) + |blobs[|blobs| - 1].value|
  }

  /** Every blob's bytes are counted in the total. */
  lemma {:induction false} BlobWithinTotal(blobs: seq<Blob>, i: nat)
    requires i < |blobs|
    ensures |blobs[i].value| <= TotalValueBytes(blobs)
  {
    var n := |blobs| - 1;
    if i < n {
      BlobWithinTotal(blobs[..n], i);
    }
  }

  /** The first failure among per-blob outcomes, in index order. */
  function FirstFailure(results: seq<Option<string>>): (r: Option<string>)
    ensures r.None? <==> forall i :: 0 <= i < |results| ==> results[i].None?
    ensures r.Some? ==> exists i :: 0 <= i < |results| && results[i] == r
  {
    if results == [] then None
    else if results[0].Some? then results[0]
    else
      var r := FirstFailure(results[1..]);
      assert forall i :: 1 <= i < |results| ==> results[i] == results[1..][i - 1];
      r
  }

  // ---------------------------------------------------------------------------
  // The task
  // ---------------------------------------------------------------------------

  datatype BuildIndexRequest = BuildIndexRequest(
    indexBuildID: UniqueID,
    version: int,
    typeParams: seq<KeyValuePair>,
    indexParams: seq<KeyValuePair>)

  datatype FieldData =
    | FloatVectorFieldData(floats: seq<real>)
    | BinaryVectorFieldData(bytes: seq<bv8>)
    | OtherFieldData

  /** What the insert codec deserializes from the loaded binlogs. */
  datatype InsertData = InsertData(
    collectionID: UniqueID,
    partitionID: UniqueID,
    segmentID: UniqueID,
    data: map<FieldID, FieldData>)

  class IndexBuildTask {
    const req: BuildIndexRequest
    var newTypeParams: Params
    var newIndexParams: Params
    var collectionID: UniqueID
    var partitionID: UniqueID
    var segmentID: UniqueID
    var savePaths: seq<string>
    var serializedSize: nat
    /** An error that fails the task for good. */
    var err: Option<string>
    /** An error after which the task may be retried. */
    var internalErr: Option<string>

    constructor (req: BuildIndexRequest)
      ensures this.req == req
      ensures newTypeParams == map[] && newIndexParams == map[]
      ensures savePaths == [] && serializedSize == 0
      ensures err == None && internalErr == None
    {
      this.req := req;
      newTypeParams := map[];
      newIndexParams := map[];
      collectionID := 0;
      partitionID := 0;
      segmentID := 0;
      savePaths := [];
      serializedSize := 0;
      err := None;
      internalErr := None;
    }

    /** Flattens both parameter lists; the task's maps are replaced only if both succeed. */
    method ExecutePrepareParams(parse: ParamsParser) returns (e: Option<string>)
      modifies this`newTypeParams, this`newIndexParams
      ensures var t := FlattenParams(req.typeParams, parse, DuplicatedTypeParamMsg);
        var x := FlattenParams(req.indexParams, parse, DuplicatedIndexParamMsg);
        && (t.Failure? ==> e == Some(t.error))
        && (t.Success? && x.Failure? ==> e == Some(x.error))
        && (e.Some? ==> newTypeParams == old(newTypeParams) && newIndexParams == old(newIndexParams))
        && (e.None? <==> t.Success? && x.Success?)
        && (e.None? ==> newTypeParams == t.value && newIndexParams == x.value)
    {
      var typeParams := BuildParams(req.typeParams, parse, DuplicatedTypeParamMsg);
      if typeParams.Failure? {
        return Some(typeParams.error);
      }
      var indexParams := BuildParams(req.indexParams, parse, DuplicatedIndexParamMsg);
      if indexParams.Failure? {
        return Some(indexParams.error);
      }
      newTypeParams := typeParams.value;
      newIndexParams := indexParams.value;
      return None;
    }

    /**
     * The checks of executeStepLoad around its I/O: a load failure is kept as
     * an internal error; deserialized data must hold exactly one field.
     */
    method ExecuteStepLoad(loadErr: Option<string>, deserialized: Result<InsertData, string>)
      returns (r: Result<(FieldID, FieldData), string>)
      modifies this`internalErr, this`collectionID, this`partitionID, this`segmentID
      ensures loadErr.Some? ==> r == Failure(loadErr.value) && internalErr == loadErr
      ensures loadErr.None? ==> internalErr == old(internalErr)
      ensures loadErr.None? && deserialized.Failure? ==> r == Failure(deserialized.error)
      ensures loadErr.None? && deserialized.Success? && |deserialized.value.data| != 1 ==> r == Failure(OneFieldExpectedMsg)
      ensures r.Success? <==> loadErr.None? && deserialized.Success? && |deserialized.value.data| == 1
      ensures r.Success? ==>
        && r.value.0 in deserialized.value.data && r.value.1 == deserialized.value.data[r.value.0]
        && collectionID == deserialized.value.collectionID
        && partitionID == deserialized.value.partitionID
        && segmentID == deserialized.value.segmentID
      ensures r.Failure? ==>
        collectionID == old(collectionID) && partitionID == old(partitionID) && segmentID == old(segmentID)
    {
      if loadErr.Some? {
        internalErr := loadErr;
        return Failure(loadErr.value);
      }
      if deserialized.Failure? {
        return Failure(deserialized.error);
      }
      var insertData := deserialized.value;
      if |insertData.data| != 1 {
        return Failure(OneFieldExpectedMsg);
      }
      collectionID := insertData.collectionID;
      partitionID := insertData.partitionID;
      segmentID := insertData.segmentID;
      ghost var w := SomeElement(insertData.data.Keys);
      var fieldID :| fieldID in insertData.data;
      return Success((fieldID, insertData.data[fieldID]));
    }

    /** The save path of a blob key, for this task's request and segment. */
    function SavePathByKey(root: string, key: string): string
      reads this`partitionID, this`segmentID
    {
      SavePath(root, req.indexBuildID, req.version, partitionID, segmentID, key)
    }

    /** The loop of executeSave that adds up the blobs' value lengths. */
    method SumValueBytes(blobs: seq<Blob>) returns (size: nat)
      ensures size == TotalValueBytes(blobs)
    {
      size := 0;
      for i := 0 to |blobs|
        invariant size == TotalValueBytes(blobs[..i])
      {
        assert blobs[..i + 1][..i] == blobs[..i];
        size := size + |blobs[i].value|;
      }
      assert blobs[..|blobs|] == blobs;
    }

    /** The path table of executeSave: empty strings, filled in for every blob that was saved. */
    method SavedPaths(root: string, blobs: seq<Blob>, saveResults: seq<Option<string>>) returns (paths: seq<string>)
      requires |saveResults| == |blobs|
      ensures |paths| == |blobs|
      ensures forall i :: 0 <= i < |blobs| ==>
        paths[i] == if saveResults[i].None? then SavePathByKey(root, blobs[i].key) else ""
    {
      var buf := new string[|blobs|](_ => "");
      for i := 0 to |blobs|
        invariant forall j :: 0 <= j < i ==>
          buf[j] == if saveResults[j].None? then SavePathByKey(root, blobs[j].key) else ""
        invariant forall j :: i <= j < |blobs| ==> buf[j] == ""
      {
        if saveResults[i].None? {
          buf[i] := SavePathByKey(root, blobs[i].key);
        }
      }
      paths := buf[..];
    }

    /**
     * The bookkeeping of executeSave: `saveResults[i]` is the outcome of saving
     * blob i (None when it was saved). The size counts every blob; a path is
     * recorded only for a saved blob; a failure becomes an internal error and
     * the step itself always succeeds.
     */
    method ExecuteSave(root: string, blobs: seq<Blob>, saveResults: seq<Option<string>>) returns (e: Option<string>)
      requires |saveResults| == |blobs|
      modifies this`serializedSize, this`savePaths, this`internalErr
      ensures e == None
      ensures serializedSize == TotalValueBytes(blobs)
      ensures |savePaths| == |blobs|
      ensures forall i :: 0 <= i < |blobs| ==>
        savePaths[i] == if saveResults[i].None? then SavePathByKey(root, blobs[i].key) else ""
      ensures internalErr == if FirstFailure(saveResults).Some? then FirstFailure(saveResults) else old(internalErr)
    {
      serializedSize := SumValueBytes(blobs);
      savePaths := SavedPaths(root, blobs, saveResults);
      var failure := FirstFailure(saveResults);
      if failure.Some? {
        internalErr := failure;
      }
      return None;
    }

    /** The decision inside checkIndexMeta, applied to a loaded record by updating a copy of it. */
    method CheckIndexMeta(loaded: IndexMeta, pre: bool) returns (d: MetaDecision)
      ensures d == DecideIndexMeta(loaded, req.version, pre, savePaths, serializedSize, err, internalErr)
    {
      var indexMeta := loaded;
      if indexMeta.version > req.version || indexMeta.state == Finished {
        return Skip;
      }
      if indexMeta.markDeleted {
        indexMeta := indexMeta.(state := Finished);
        return Deleted(indexMeta);
      }
      if pre {
        return PreChecked;
      }
      indexMeta := indexMeta.(indexFilePaths := savePaths);
      indexMeta := indexMeta.(state := Finished);
      indexMeta := indexMeta.(serializeSize := serializedSize);
      if err.Some? {
        indexMeta := indexMeta.(state := Failed);
        indexMeta := indexMeta.(failReason := err.value);
      } else if internalErr.Some? {
        indexMeta := indexMeta.(state := Unissued);
      }
      return Update(indexMeta);
    }
  }
}
