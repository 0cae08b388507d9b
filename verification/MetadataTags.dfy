/** The snapshot tags that carry database metadata, and reading them back from a mixed list of tags. */
module MetadataTags {
  import opened Wrappers
  import opened Lines
  import Base64

  datatype Field = Engine | Database | Format | Filename | ServerVersion | ClientVersion | Encoding | Collation

  datatype Metadata = Metadata(
    engine: Bytes, database: Bytes, format: Bytes, filename: Bytes,
    serverVersion: Bytes, clientVersion: Bytes, encoding: Bytes, collation: Bytes)

  datatype Result<+T> = Ok(value: T) | Err(error: Error)

  datatype Error = Incomplete | Duplicate(name: string) | Undecodable(name: string) | UnsupportedVersion(version: string)

  /** Whether a value consists of white space only (`strings.TrimSpace(v) == ""`). */
  type Blank = Bytes -> bool

  const FIELDS: seq<Field> := [Engine, Database, Format, Filename, ServerVersion, ClientVersion, Encoding, Collation]

  const MYSQL: Bytes := [109, 121, 115, 113, 108]
  const POSTGRESQL: Bytes := [112, 111, 115, 116, 103, 114, 101, 115, 113, 108]

  const VERSION_KEY := "rc:metadata-version"
  const VERSION_TAG := "rc:metadata-version=1"
  const SOURCE_TAG := "rc:source=database"
  const META_PREFIX := "rc:meta-"

  function Name(f: Field): (n: string)
    ensures '=' !in n
  {
    match f
    case Engine => "engine" case Database => "database" case Format => "format" case Filename => "filename"
    case ServerVersion => "server-version" case ClientVersion => "client-version"
    case Encoding => "encoding" case Collation => "collation"
  }

  function Read(m: Metadata, f: Field): Bytes {
    match f
    case Engine => m.engine case Database => m.database case Format => m.format case Filename => m.filename
    case ServerVersion => m.serverVersion case ClientVersion => m.clientVersion
    case Encoding => m.encoding case Collation => m.collation
  }

  predicate Valid(blank: Blank, m: Metadata) {
    (m.engine == MYSQL || m.engine == POSTGRESQL) && forall f :: f in FIELDS ==> !blank(Read(m, f))
  }

  function FieldTag(m: Metadata, f: Field): string {
    META_PREFIX + Name(f) + "=" + Base64.Encode(Read(m, f))
  }

  method EncodeMetadataTags(blank: Blank, m: Metadata) returns (r: Result<seq<string>>)
    ensures r.Ok? <==> Valid(blank, m)
    ensures r.Ok? ==> r.value == Tags(m)
  {
    var complete := ValidateCompleteMetadata(blank, m);
    if !complete {
      return Err(Incomplete);
    }
    var tags := [VERSION_TAG, SOURCE_TAG];
    for i := 0 to |FIELDS|
      invariant tags == [VERSION_TAG, SOURCE_TAG] + FieldTags(m, i)
    {
      tags := tags + [FieldTag(m, FIELDS[i])];
    }
    return Ok(tags);
  }

  method ValidateCompleteMetadata(blank: Blank, m: Metadata) returns (ok: bool)
    ensures ok <==> Valid(blank, m)
  {
    if m.engine != MYSQL && m.engine != POSTGRESQL {
      return false;
    }
    for i := 0 to |FIELDS|
      invariant forall k :: 0 <= k < i ==> !blank(Read(m, FIELDS[k]))
    {
      if blank(Read(m, FIELDS[i])) {
        return false;
      }
    }
    return true;
  }

  function FieldTags(m: Metadata, n: nat): seq<string>
    requires n <= |FIELDS|
  {
    seq(n, i requires 0 <= i < n => FieldTag(m, FIELDS[i]))
  }

  function Tags(m: Metadata): seq<string> {
    [VERSION_TAG, SOURCE_TAG] + FieldTags(m, |FIELDS|)
  }

  // ----- Reading tags

  datatype Scanned = Scanned(values: map<string, Bytes>, version: string)

  /** The part before the first "=", and the part after it. */
  function Cut(tag: string): Option<(string, string)> {
    if tag == "" then None
    else if tag[0] == '=' then Some(("", tag[1..]))
    else
      match Cut(tag[1..])
      case None => None
      case Some((key, value)) => Some(([tag[0]] + key, value))
  }

  /** The metadata field a tag claims to carry, if any. */
  function ClaimedName(tag: string): Option<string> {
    match Cut(tag)
    case None => None
    case Some((key, _)) => if META_PREFIX <= key && key != VERSION_KEY then Some(key[|META_PREFIX|..]) else None
  }

  predicate SetsVersion(tag: string) {
    Cut(tag).Some? && Cut(tag).value.0 == VERSION_KEY
  }

  predicate Foreign(tag: string) {
    ClaimedName(tag).None? && !SetsVersion(tag)
  }

  function ScanTag(s: Scanned, tag: string): Result<Scanned> {
    if SetsVersion(tag) then Ok(s.(version := Cut(tag).value.1))
    else
      match ClaimedName(tag)
      case None => Ok(s)
      case Some(name) =>
        if name in s.values then Err(Duplicate(name))
        else
          match Base64.Decode(Cut(tag).value.1)
          case None => Err(Undecodable(name))
          case Some(bytes) => Ok(s.(values := s.values[name := bytes]))
  }

  function Scan(tags: seq<string>): Result<Scanned> {
    if tags == [] then Ok(Scanned(map[], ""))
    else
      match Scan(tags[..|tags| - 1])
      case Err(e) => Err(e)
      case Ok(s) => ScanTag(s, tags[|tags| - 1])
  }

  function Lookup(values: map<string, Bytes>, f: Field): Bytes {
    if Name(f) in values then values[Name(f)] else []
  }

  function Assemble(values: map<string, Bytes>): Metadata {
    Metadata(Lookup(values, Engine), Lookup(values, Database), Lookup(values, Format), Lookup(values, Filename),
             Lookup(values, ServerVersion), Lookup(values, ClientVersion), Lookup(values, Encoding), Lookup(values, Collation))
  }

  ghost predicate Decoded(blank: Blank, tags: seq<string>, r: Result<Metadata>) {
    match Scan(tags)
    case Err(e) => r == Err(e)
    case Ok(s) =>
      if s.version != "1" then r == Err(UnsupportedVersion(s.version))
      else if Valid(blank, Assemble(s.values)) then r == Ok(Assemble(s.values))
      else r == Err(Incomplete)
  }

  method DecodeMetadataTags(blank: Blank, tags: seq<string>) returns (r: Result<Metadata>)
    ensures Decoded(blank, tags, r)
  {
    var values, version := map[], "";
    for i := 0 to |tags|
      invariant Scan(tags[..i]) == Ok(Scanned(values, version))
    {
      assert tags[..i + 1][..i] == tags[..i];
      var tag := tags[i];
      if Cut(tag).Some? {
        var (key, value) := Cut(tag).value;
        if key == VERSION_KEY {
          version := value;
        } else if META_PREFIX <= key {
          var name := key[|META_PREFIX|..];
          if name in values {
            ScanFailsForGood(tags, i + 1);
            return Err(Duplicate(name));
          }
          var decoded := Base64.Decode(value);
          if decoded.None? {
            ScanFailsForGood(tags, i + 1);
            return Err(Undecodable(name));
          }
          values := values[name := decoded.value];
        }
      }
    }
    assert tags[..|tags|] == tags;
    if version != "1" {
      return Err(UnsupportedVersion(version));
    }
    var metadata := Assemble(values);
    var complete := ValidateCompleteMetadata(blank, metadata);
    return if complete then Ok(metadata) else Err(Incomplete);
  }

  lemma {:induction false} ScanFailsForGood(tags: seq<string>, n: nat)
    requires n <= |tags| && Scan(tags[..n]).Err?
    ensures Scan(tags) == Scan(tags[..n])
    decreases |tags|
  {
    if n == |tags| {
      assert tags[..n] == tags;
    } else {
      assert tags[..|tags| - 1][..n] == tags[..n];
      ScanFailsForGood(tags[..|tags| - 1], n);
    }
  }

  // ----- What our own tags are read as

  lemma {:induction false} CutAtKey(key: string, value: string)
    requires '=' !in key
    ensures Cut(key + "=" + value) == Some((key, value))
  {
    var tag := key + "=" + value;
    if key == "" {
      assert tag[1..] == value;
    } else {
      assert tag[1..] == key[1..] + "=" + value;
      assert key == [key[0]] + key[1..];
      CutAtKey(key[1..], value);
    }
  }

  lemma NamesDiffer(f: Field, g: Field)
    ensures Name(f) == Name(g) ==> f == g
  {
    assert |"engine"| == 6 && |"database"| == 8 && |"format"| == 6 && |"filename"| == 8;
    assert "engine"[0] == 'e' && "format"[0] == 'f' && "database"[0] == 'd' && "filename"[0] == 'f' && "encoding"[0] == 'e';
    assert "server-version"[0] == 's' && "client-version"[0] == 'c' && "collation"[0] == 'c' && |"collation"| == 9;
  }

  lemma FieldTagReads(m: Metadata, f: Field)
    ensures Cut(FieldTag(m, f)) == Some((META_PREFIX + Name(f), Base64.Encode(Read(m, f))))
    ensures ClaimedName(FieldTag(m, f)) == Some(Name(f)) && !SetsVersion(FieldTag(m, f))
    ensures Base64.Decode(Base64.Encode(Read(m, f))) == Some(Read(m, f))
  {
    var key := META_PREFIX + Name(f);
    assert FieldTag(m, f) == key + "=" + Base64.Encode(Read(m, f));
    CutAtKey(key, Base64.Encode(Read(m, f)));
    assert key[7] == '-' && VERSION_KEY[7] == 'd';
    assert key[|META_PREFIX|..] == Name(f);
    Base64.RoundTrip(Read(m, f));
  }

  lemma VersionTagReads()
    ensures Cut(VERSION_TAG) == Some((VERSION_KEY, "1")) && SetsVersion(VERSION_TAG) && !Foreign(VERSION_TAG)
  {
    assert VERSION_TAG == VERSION_KEY + "=" + "1";
    CutAtKey(VERSION_KEY, "1");
    hide Cut;
  }

  lemma SourceTagIsForeign()
    ensures Foreign(SOURCE_TAG)
  {
    assert SOURCE_TAG == "rc:source" + "=" + "database";
    CutAtKey("rc:source", "database");
    SourceKeyIsForeign();
    hide Cut;
  }

  lemma SourceKeyIsForeign()
    ensures !(META_PREFIX <= "rc:source") && "rc:source" != VERSION_KEY
  {
    assert "rc:source"[3] == 's' && META_PREFIX[3] == 'm' && VERSION_KEY[3] == 'm';
  }

  // ----- The round trip

  /** Tags of which each is foreign or one of the metadata's own, and no field appears twice. */
  ghost predicate Mixed(m: Metadata, tags: seq<string>) {
    && (forall i :: 0 <= i < |tags| ==> Foreign(tags[i]) || tags[i] == VERSION_TAG || exists f :: tags[i] == FieldTag(m, f))
    && (forall i, j, f :: 0 <= i < j < |tags| && tags[i] == FieldTag(m, f) ==> tags[j] != FieldTag(m, f))
  }

  ghost predicate ReadsAs(m: Metadata, tags: seq<string>, s: Scanned) {
    && (forall f :: Name(f) in s.values <==> FieldTag(m, f) in tags)
    && (forall f :: Name(f) in s.values ==> s.values[Name(f)] == Read(m, f))
    && s.version == if VERSION_TAG in tags then "1" else ""
  }

  lemma {:induction false} MixedReads(m: Metadata, tags: seq<string>)
    requires Mixed(m, tags)
    ensures Scan(tags).Ok? && ReadsAs(m, tags, Scan(tags).value)
  {
    if tags != [] {
      var init, tag := tags[..|tags| - 1], tags[|tags| - 1];
      assert tags == init + [tag];
      MixedReads(m, init);
      var s := Scan(init).value;
      hide Base64.Encode, Base64.Decode, FieldTag, ReadsAs, ScanTag;
      if exists f :: tag == FieldTag(m, f) {
        var f :| tag == FieldTag(m, f);
        assert tag !in init by {
          forall i | 0 <= i < |init|
            ensures init[i] != tag
          {
            assert init[i] == tags[i] && tag == tags[|tags| - 1];
          }
        }
        FieldStep(m, init, s, f);
      } else {
        OtherStep(m, init, s, tag);
      }
    }
  }

  lemma OtherStep(m: Metadata, init: seq<string>, s: Scanned, tag: string)
    requires ReadsAs(m, init, s) && (Foreign(tag) || tag == VERSION_TAG) && forall f :: tag != FieldTag(m, f)
    ensures ScanTag(s, tag).Ok? && ReadsAs(m, init + [tag], ScanTag(s, tag).value)
  {
    VersionTagReads();
    hide Cut, FieldTag, Name;
  }

  lemma FieldStep(m: Metadata, init: seq<string>, s: Scanned, f: Field)
    requires ReadsAs(m, init, s) && FieldTag(m, f) !in init
    ensures ScanTag(s, FieldTag(m, f)) == Ok(s.(values := s.values[Name(f) := Read(m, f)]))
    ensures ReadsAs(m, init + [FieldTag(m, f)], s.(values := s.values[Name(f) := Read(m, f)]))
  {
    FieldTagReads(m, f);
    VersionTagReads();
    hide Cut, ClaimedName, SetsVersion, FieldTag, Name, Read, Base64.Encode, Base64.Decode;
    assert Name(f) !in s.values;
    var next := s.(values := s.values[Name(f) := Read(m, f)]);
    forall g
      ensures Name(g) == Name(f) ==> g == f
      ensures FieldTag(m, g) == FieldTag(m, f) ==> g == f
    {
      NamesDiffer(g, f);
      FieldTagReads(m, g);
    }
    forall g
      ensures Name(g) in next.values <==> FieldTag(m, g) in init + [FieldTag(m, f)]
    {
    }
  }

  lemma CountTwice(tags: seq<string>, i: nat, j: nat)
    requires i < j < |tags| && tags[i] == tags[j]
    ensures multiset(tags)[tags[i]] >= 2
  {
    assert tags == tags[..j] + tags[j..];
    assert tags[..j][i] == tags[i] && tags[j..][0] == tags[j];
    assert tags[i] in multiset(tags[..j]) && tags[i] in multiset(tags[j..]);
  }

  lemma CountOnce(tags: seq<string>, p: nat)
    requires p < |tags| && forall i :: 0 <= i < |tags| && i != p ==> tags[i] != tags[p]
    ensures multiset(tags)[tags[p]] == 1
  {
    var a, b := tags[..p], tags[p + 1..];
    assert tags == a + [tags[p]] + b;
    assert tags[p] !in a && tags[p] !in b;
    assert multiset(tags) == multiset(a) + multiset{tags[p]} + multiset(b);
  }

  lemma OwnTagsAreDistinct(m: Metadata, f: Field)
    ensures multiset(Tags(m))[FieldTag(m, f)] == 1
  {
    var tags := Tags(m);
    var k := Position(f);
    forall i | 0 <= i < |tags| && i != k + 2
      ensures tags[i] != FieldTag(m, f)
    {
      OtherTag(m, f, k, i);
    }
    CountOnce(tags, k + 2);
  }

  function Position(f: Field): (k: nat)
    ensures k < |FIELDS| && FIELDS[k] == f
  {
    match f
    case Engine => 0 case Database => 1 case Format => 2 case Filename => 3
    case ServerVersion => 4 case ClientVersion => 5 case Encoding => 6 case Collation => 7
  }

  lemma OtherTag(m: Metadata, f: Field, k: nat, i: nat)
    requires k < |FIELDS| && FIELDS[k] == f && i < |Tags(m)| && i != k + 2
    ensures Tags(m)[i] != FieldTag(m, f)
  {
    if i >= 2 {
      DistinctFields(i - 2, k);
      OtherFieldTag(m, FIELDS[i - 2], f);
    } else {
      PlainTagsDiffer(m, f);
    }
  }

  lemma OtherFieldTag(m: Metadata, g: Field, f: Field)
    requires g != f
    ensures FieldTag(m, g) != FieldTag(m, f)
  {
    FieldTagReads(m, f);
    FieldTagReads(m, g);
    NamesDiffer(g, f);
    hide Cut, FieldTag, ClaimedName, Name;
  }

  lemma PlainTagsDiffer(m: Metadata, f: Field)
    ensures VERSION_TAG != FieldTag(m, f) && SOURCE_TAG != FieldTag(m, f)
  {
    FieldTagReads(m, f);
    VersionTagReads();
    SourceTagIsForeign();
    hide Cut, FieldTag, ClaimedName, Name, SetsVersion;
  }

  lemma DistinctFields(i: nat, k: nat)
    requires i < |FIELDS| && k < |FIELDS| && i != k
    ensures FIELDS[i] != FIELDS[k]
  {
  }

  /** Any permutation of the encoded tags mixed with any foreign tags decodes to the metadata they came from. */
  lemma TagsRoundTrip(blank: Blank, m: Metadata, foreign: seq<string>, tags: seq<string>, r: Result<Metadata>)
    requires Valid(blank, m)
    requires forall t :: t in foreign ==> Foreign(t)
    requires multiset(tags) == multiset(Tags(m)) + multiset(foreign)
    requires Decoded(blank, tags, r)
    ensures r == Ok(m)
  {
    hide Cut, FieldTag, ClaimedName, SetsVersion, Scan, Read;
    forall f
      ensures multiset(tags)[FieldTag(m, f)] == 1 && FieldTag(m, f) in tags
    {
      FieldOnce(m, foreign, tags, f);
    }
    assert VERSION_TAG in multiset(tags) by {
      assert Tags(m)[0] == VERSION_TAG;
    }
    PermutationIsMixed(m, foreign, tags);
    MixedReads(m, tags);
    var s := Scan(tags).value;
    assert forall f :: Lookup(s.values, f) == Read(m, f);
    AssembleReads(m, s.values);
  }

  lemma AssembleReads(m: Metadata, values: map<string, Bytes>)
    requires forall f :: Lookup(values, f) == Read(m, f)
    ensures Assemble(values) == m
  {
    hide Lookup;
    assert Read(m, Engine) == m.engine && Read(m, Database) == m.database && Read(m, Format) == m.format;
    assert Read(m, Filename) == m.filename && Read(m, ServerVersion) == m.serverVersion;
    assert Read(m, ClientVersion) == m.clientVersion && Read(m, Encoding) == m.encoding && Read(m, Collation) == m.collation;
  }

  lemma FieldOnce(m: Metadata, foreign: seq<string>, tags: seq<string>, f: Field)
    requires forall t :: t in foreign ==> Foreign(t)
    requires multiset(tags) == multiset(Tags(m)) + multiset(foreign)
    ensures multiset(tags)[FieldTag(m, f)] == 1 && FieldTag(m, f) in tags
  {
    OwnTagsAreDistinct(m, f);
    FieldTagReads(m, f);
    hide Cut, FieldTag, ClaimedName, SetsVersion, Tags;
    assert FieldTag(m, f) !in foreign;
    assert FieldTag(m, f) in multiset(tags);
  }

  lemma PermutationIsMixed(m: Metadata, foreign: seq<string>, tags: seq<string>)
    requires forall t :: t in foreign ==> Foreign(t)
    requires multiset(tags) == multiset(Tags(m)) + multiset(foreign)
    requires forall f :: multiset(tags)[FieldTag(m, f)] == 1
    ensures Mixed(m, tags)
  {
    SourceTagIsForeign();
    hide Cut, FieldTag, ClaimedName, SetsVersion, Foreign;
    forall i | 0 <= i < |tags|
      ensures Foreign(tags[i]) || tags[i] == VERSION_TAG || exists f :: tags[i] == FieldTag(m, f)
    {
      assert tags[i] in multiset(tags);
      assert tags[i] in Tags(m) || tags[i] in foreign;
    }
    forall i, j, f | 0 <= i < j < |tags| && tags[i] == FieldTag(m, f)
      ensures tags[j] != FieldTag(m, f)
    {
      if tags[j] == FieldTag(m, f) {
        CountTwice(tags, i, j);
      }
    }
  }

  /** Conversely nothing is made up: decoded metadata is valid, and each field's value stands in exactly one tag. */
  lemma DecodedFieldsStandInTags(blank: Blank, tags: seq<string>, m: Metadata, f: Field) returns (i: nat)
    requires Decoded(blank, tags, Ok(m)) && !blank(Read(m, f)) && (blank([]) || Read(m, f) != [])
    ensures Valid(blank, m) && i < |tags| && ClaimedName(tags[i]) == Some(Name(f))
    ensures Base64.Decode(Cut(tags[i]).value.1) == Some(Read(m, f))
    ensures forall j :: 0 <= j < |tags| && j != i ==> ClaimedName(tags[j]) != Some(Name(f))
  {
    var values := Scan(tags).value.values;
    assert Lookup(values, f) == Read(m, f);
    i := ValueStandsInTag(tags, Name(f));
  }

  lemma {:induction false} ValueStandsInTag(tags: seq<string>, name: string) returns (i: nat)
    requires Scan(tags).Ok? && name in Scan(tags).value.values
    ensures i < |tags| && ClaimedName(tags[i]) == Some(name)
    ensures Base64.Decode(Cut(tags[i]).value.1) == Some(Scan(tags).value.values[name])
    ensures forall j :: 0 <= j < |tags| && j != i ==> ClaimedName(tags[j]) != Some(name)
  {
    hide Base64.Decode, Cut;
    var init, tag := tags[..|tags| - 1], tags[|tags| - 1];
    if name in Scan(init).value.values {
      i := ValueStandsInTag(init, name);
    } else {
      i := |tags| - 1;
      forall j | 0 <= j < |init|
        ensures ClaimedName(tags[j]) != Some(name)
      {
        ClaimedIsRead(init, j);
        assert init[j] == tags[j];
      }
    }
  }

  lemma {:induction false} ClaimedIsRead(tags: seq<string>, j: nat)
    requires Scan(tags).Ok? && j < |tags|
    ensures ClaimedName(tags[j]).Some? && !SetsVersion(tags[j]) ==> ClaimedName(tags[j]).value in Scan(tags).value.values
  {
    hide Base64.Decode, Cut;
    if j < |tags| - 1 {
      ClaimedIsRead(tags[..|tags| - 1], j);
    }
  }
}
