/** The upload of reported entries in bounded chunks, and the receiver's check on each chunk. */
module ScopeUpload {
  import opened ScopePath
  import opened ScopeScan
  import opened Text

  const MAX_CHUNK_ENTRIES := 128
  const MAX_CHUNK_BYTES := 524_288
  const VERSION := 1

  datatype Chunk = Chunk(version: int, assignmentId: string, agentId: string, sequence: int, entries: seq<Entry>)

  // ----- The receiver's check

  predicate AgentCharacter(c: char, first: bool) {
    'a' <= c <= 'z' || 'A' <= c <= 'Z' || '0' <= c <= '9' || (!first && (c == '.' || c == '_' || c == '-'))
  }

  predicate ValidAgentId(id: string) {
    0 < |id| <= 64 && forall i :: 0 <= i < |id| ==> AgentCharacter(id[i], i == 0)
  }

  method CheckAgentId(value: string) returns (ok: bool)
    ensures ok <==> ValidAgentId(value)
  {
    if |value| == 0 || |value| > 64 { return false; }
    for index := 0 to |value|
      invariant forall i :: 0 <= i < index ==> AgentCharacter(value[i], i == 0)
    {
      var c := value[index];
      var allowed := ('a' <= c <= 'z') || ('A' <= c <= 'Z') || ('0' <= c <= '9') || (index > 0 && (c == '.' || c == '_' || c == '-'));
      if !allowed { return false; }
    }
    ok := true;
  }

  predicate ValidIdentity(assignmentId: string, agentId: string) {
    ValidAgentId(agentId) && !Blank(assignmentId) && Size(assignmentId) <= 256
  }

  predicate ValidInventoryPath(path: string) {
    && path != "" && Size(path) <= 32_768 && path[0] != '/' && path[0] != '\\'
    && (forall c :: c in path ==> c != '\0' && c != '\r' && c != '\n')
    && (forall s :: s in Split(path) ==> s != "" && s != "." && s != "..")
  }

  method CheckInventoryPath(value: string) returns (ok: bool)
    ensures ok <==> ValidInventoryPath(value)
  {
    if value == "" || Size(value) > 32_768 || value[0] == '/' || value[0] == '\\' || '\0' in value || '\r' in value || '\n' in value {
      return false;
    }
    var segments := Split(value);
    for i := 0 to |segments|
      invariant forall k :: 0 <= k < i ==> segments[k] != "" && segments[k] != "." && segments[k] != ".."
    {
      if segments[i] == "" || segments[i] == "." || segments[i] == ".." {
        assert segments[i] in segments;
        return false;
      }
    }
    ok := true;
  }

  const REASONS := {"", "exclusion_rule", "permission_denied", "unreadable", "special_file", "metadata_unavailable"}

  /** What the receiver asks of one entry by itself. */
  predicate Acceptable(e: Entry) {
    && ValidInventoryPath(e.path) && 0 <= e.size && e.reason in REASONS
    && |e.rules| <= 256 && forall i :: i in e.rules ==> i < 256
  }

  predicate ValidChunk(c: Chunk, agentId: string) {
    && c.version == VERSION && c.agentId == agentId && ValidIdentity(c.assignmentId, c.agentId)
    && 0 <= c.sequence && 0 < |c.entries| <= MAX_CHUNK_ENTRIES
    && (forall i :: 0 <= i < |c.entries| ==> 0 < c.entries[i].ordinal && Acceptable(c.entries[i]))
    && (forall i, j :: 0 <= i < j < |c.entries| ==> c.entries[i].ordinal < c.entries[j].ordinal)
  }

  method ValidateFor(c: Chunk, agentId: string) returns (ok: bool)
    ensures ok <==> ValidChunk(c, agentId)
  {
    hide Acceptable;
    if c.version != VERSION || c.agentId != agentId { return false; }
    var known := CheckAgentId(c.agentId);
    if !known || Blank(c.assignmentId) || Size(c.assignmentId) > 256 { return false; }
    if c.sequence < 0 || |c.entries| == 0 || |c.entries| > MAX_CHUNK_ENTRIES { return false; }
    var previous := 0;
    for k := 0 to |c.entries|
      invariant previous == if k == 0 then 0 else c.entries[k - 1].ordinal
      invariant forall i :: 0 <= i < k ==> 0 < c.entries[i].ordinal <= previous && Acceptable(c.entries[i])
      invariant forall i, j :: 0 <= i < j < k ==> c.entries[i].ordinal < c.entries[j].ordinal
    {
      if c.entries[k].ordinal <= previous {
        assert k > 0 ==> c.entries[k - 1].ordinal >= c.entries[k].ordinal;
        return false;
      }
      var acceptable := CheckEntry(c.entries[k]);
      if !acceptable { return false; }
      previous := c.entries[k].ordinal;
    }
    ok := true;
  }

  method CheckEntry(e: Entry) returns (ok: bool)
    ensures ok <==> Acceptable(e)
  {
    var valid := CheckInventoryPath(e.path);
    if !valid || e.size < 0 || e.reason !in REASONS || |e.rules| > 256 { return false; }
    for k := 0 to |e.rules|
      invariant forall i :: 0 <= i < k ==> e.rules[i] < 256
    {
      if e.rules[k] >= 256 {
        assert e.rules[k] in e.rules;
        return false;
      }
    }
    ok := true;
  }

  // ----- The sender

  function EntryBytes(e: Entry): nat {
    Size(e.path) + Size(e.reason) + 4 * |e.rules| + 128
  }

  function Estimate(entries: seq<Entry>): nat {
    if entries == [] then 0 else Estimate(entries[..|entries| - 1]) + EntryBytes(entries[|entries| - 1])
  }

  function Delivered(sent: seq<Chunk>): seq<Entry> {
    if sent == [] then [] else Delivered(sent[..|sent| - 1]) + sent[|sent| - 1].entries
  }

  /** What every uploaded chunk is: numbered in turn, accepted by the receiver, and within the size bound. */
  ghost predicate WellSent(sent: seq<Chunk>, assignmentId: string, agentId: string) {
    forall k :: 0 <= k < |sent| ==>
      && sent[k].sequence == k && sent[k].assignmentId == assignmentId
      && ValidChunk(sent[k], agentId) && Estimate(sent[k].entries) <= MAX_CHUNK_BYTES
  }

  class Uploader {
    const assignmentId: string
    const agentId: string
    const accepts: nat -> bool   // whether the upload with this number goes through
    var entries: seq<Entry>
    var sequence: nat
    var estimated: nat
    var sent: seq<Chunk>         // what has been uploaded

    ghost predicate Valid()
      reads this
    {
      && sequence == |sent| && WellSent(sent, assignmentId, agentId)
      && estimated == Estimate(entries) && |entries| <= MAX_CHUNK_ENTRIES
      && (estimated <= MAX_CHUNK_BYTES || |entries| == 1)
    }

    /** Everything handed over so far. */
    ghost function Taken(): seq<Entry>
      reads this
    {
      Delivered(sent) + entries
    }

    constructor (assignmentId: string, agentId: string, accepts: nat -> bool)
      ensures this.assignmentId == assignmentId && this.agentId == agentId && this.accepts == accepts
      ensures Valid() && Taken() == [] && sent == [] && entries == []
    {
      this.assignmentId, this.agentId, this.accepts := assignmentId, agentId, accepts;
      entries, sequence, estimated, sent := [], 0, 0, [];
    }

    method Flush() returns (ok: bool)
      requires Valid()
      modifies this
      ensures Valid() && Taken() == old(Taken())
      ensures ok ==> entries == []
      ensures !ok ==> sent == old(sent) && entries == old(entries)
      ensures ok ==> sent == old(sent) + if old(entries) == [] then [] else [Chunk(1, assignmentId, agentId, |old(sent)|, old(entries))]
      ensures ok <==> old(entries) == []
                      || (ValidChunk(Chunk(VERSION, assignmentId, agentId, |old(sent)|, old(entries)), agentId) && accepts(|old(sent)|))
    {
      hide ValidChunk;
      if |entries| == 0 { return true; }
      var chunk := Chunk(VERSION, assignmentId, agentId, sequence, entries);
      ok := ValidateFor(chunk, agentId);
      if !ok { return false; }
      if !accepts(sequence) { return false; }
      ValidChunkIsSmall(chunk, agentId);
      assert (sent + [chunk])[..|sent|] == sent;
      sent := sent + [chunk];
      sequence := sequence + 1;
      entries := [];
      estimated := 0;
      assert Taken() == old(Taken());
    }

    method Visit(entry: Entry) returns (ok: bool)
      requires Valid()
      modifies this
      ensures Valid()
      ensures Taken() == if ok then old(Taken()) + [entry] else old(Taken())
      ensures !ok ==> sent == old(sent) && entries == old(entries) && Refused()
      // what is pending goes first exactly when the entry would be one too many or too much
      ensures var full := old(entries) != [] && (|old(entries)| >= 128 || Estimate(old(entries)) + EntryBytes(entry) > 524_288);
        && (!full ==> ok && sent == old(sent) && entries == old(entries) + [entry])
        && (full && ok ==> |sent| == |old(sent)| + 1 && sent[|old(sent)|].entries == old(entries) && entries == [entry])
        && (full ==> (ok <==> old(!Refused())))
    {
      hide ValidChunk, Acceptable, WellSent;
      var size := EntryBytes(entry);
      if |entries| > 0 && (|entries| >= MAX_CHUNK_ENTRIES || estimated + size > MAX_CHUNK_BYTES) {
        ok := Flush();
        if !ok { return false; }
      }
      assert (entries + [entry])[..|entries|] == entries;
      assert Delivered(sent) + (entries + [entry]) == Delivered(sent) + entries + [entry];
      entries := entries + [entry];
      estimated := estimated + size;
      ok := true;
    }

    /** The pending entries cannot get through as the next chunk. */
    ghost predicate Refused()
      reads this
    {
      entries != [] && !(ValidChunk(Chunk(VERSION, assignmentId, agentId, |sent|, entries), agentId) && accepts(|sent|))
    }
  }

  /** A valid chunk of one entry is within the size bound, so only a whole chunk's estimate needs watching. */
  lemma ValidChunkIsSmall(c: Chunk, agentId: string)
    requires ValidChunk(c, agentId)
    ensures |c.entries| == 1 ==> Estimate(c.entries) <= MAX_CHUNK_BYTES
  {
    hide ValidInventoryPath, ValidIdentity, Size;
    if |c.entries| == 1 {
      var e := c.entries[0];
      assert Acceptable(e) && |e.reason| <= 20;
      assert c.entries[..0] == [];
      assert Size(e.path) <= 32_768 by { PathBound(e.path); }
    }
  }

  lemma PathBound(path: string)
    requires ValidInventoryPath(path)
    ensures Size(path) <= 32_768
  {}

  /** Entries in ordinal order make a valid chunk as soon as each is acceptable and the identities are valid. */
  lemma AcceptableRunIsValid(all: seq<Entry>, from: nat, entries: seq<Entry>, n: nat, assignmentId: string,
       agentId: string, rules: nat)
    requires Reported(all, rules) && from + |entries| <= |all| && entries == all[from..from + |entries|]
    requires 0 < |entries| <= MAX_CHUNK_ENTRIES
    ensures ValidChunk(Chunk(VERSION, assignmentId, agentId, n, entries), agentId)
            <==> ValidIdentity(assignmentId, agentId) && forall e :: e in entries ==> Acceptable(e)
  {
    hide Acceptable, ValidIdentity, WellFormed;
    assert forall i :: 0 <= i < |entries| ==> entries[i] == all[from + i] && entries[i].ordinal == from + i + 1;
  }

  /** What has been uploaded was acceptable. */
  lemma {:induction false} DeliveredIsAcceptable(sent: seq<Chunk>, assignmentId: string, agentId: string)
    requires WellSent(sent, assignmentId, agentId)
    ensures forall e :: e in Delivered(sent) ==> Acceptable(e)
    ensures Delivered(sent) != [] ==> ValidIdentity(assignmentId, agentId)
  {
    hide Acceptable, ValidIdentity;
    if sent != [] {
      DeliveredIsAcceptable(sent[..|sent| - 1], assignmentId, agentId);
    }
  }
}
