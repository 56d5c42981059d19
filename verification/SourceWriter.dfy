/** Compare-and-swap writes of one source file, on a disk whose operations may fail before or after they take effect. */
module SourceWriter {
  import opened Wrappers
  import opened EnvText
  import opened EnvEditor
  import opened EnvSplice
  import EnvFile

  /** The keyed fingerprint of a source's bytes, taken to be injective. */
  datatype Fingerprint = Fingerprint(sourceId: string, bytes: string)

  datatype SourceConfig = SourceConfig(maximum: nat, controlled: bool)

  datatype WriterError =
    | SourceChanged | SourceNotFound | MetadataDrift | NotWritable | RequiredDelete
    | ParseFailed | AdapterRejected | TooLarge | WriteFailed | VerifyFailed

  function Occurrences(defs: seq<Definition>, name: string): nat {
    if defs == [] then 0 else (if defs[0].name == name then 1 else 0) + Occurrences(defs[1..], name)
  }

  /** Every operation names exactly one definition. */
  predicate SingleDefinitions(defs: seq<Definition>, ops: seq<Operation>) {
    forall i :: 0 <= i < |ops| ==> Occurrences(defs, ops[i].name) == 1
  }

  /** The text that operations make of a source's bytes; None when they are refused. */
  function RewriteText(bytes: string, maximum: nat, ops: seq<Operation>): Option<string> {
    var parsed := EnvFile.ParseSource(bytes, maximum);
    if ops == [] || !AllLegal(ops) || parsed.Err? || !SingleDefinitions(parsed.value, ops) then None
    else Updated(bytes, parsed.value, ops)
  }

  /** The bytes that the writer replaces a source's bytes with; None when it refuses. */
  function Rewrite(bytes: string, maximum: nat, ops: seq<Operation>): Option<string> {
    var next := RewriteText(bytes, maximum, ops);
    if next.None? || |next.value| > maximum then None else next
  }

  /** The serialization step of a write. */
  method Serialize(bytes: string, maximum: nat, ops: seq<Operation>) returns (r: Result<string, WriterError>)
    ensures AllLegal(ops) ==> RewriteText(bytes, maximum, ops) == if r.Ok? then Some(r.value) else None
    ensures AllLegal(ops) && r.Err? ==> BytesFailure(bytes, maximum, ops) == Some(r.error)
    ensures AllLegal(ops) && r.Ok? ==>
              BytesFailure(bytes, maximum, ops) == (if |r.value| > maximum then Some(TooLarge)
                                                    else if EnvFile.ParseSource(r.value, maximum).Err? then Some(ParseFailed) else None)
  {
    if ops == [] { return Err(ParseFailed); }
    var parsed := EnvFile.ParseTextAssignments(bytes, maximum);
    if parsed.Err? || !SingleDefinitions(parsed.value, ops) { return Err(ParseFailed); }
    var next := EnvFile.SerializeUpdatedSource(bytes, parsed.value, ops);
    return if next.None? then Err(AdapterRejected) else Ok(next.value);
  }

  /** What a rewritten source reads as: the values that were set, exactly when the edits are faithful. */
  lemma {:induction false} RewriteReads(bytes: string, maximum: nat, ops: seq<Operation>)
    requires Rewrite(bytes, maximum, ops).Some? && Distinct(ops)
    ensures var defs := EnvFile.ParseSource(bytes, maximum).value; var edits := EditsOf(ops);
            var after := EnvFile.ParseSource(Rewrite(bytes, maximum, ops).value, maximum);
            after.Ok? && EnvFile.NamesValues(after.value) == Expected(defs, edits) <==>
            EnvFile.NulFree(defs, edits) && Faithful(Cut(bytes).value, map[], edits, defs)
  {
    var defs := EnvFile.ParseSource(bytes, maximum).value;
    RequestRefused(Table(defs), ops);
    EnvFile.UpdateRoundTrip(bytes, maximum, defs, ops);
  }

  // ----- what a write answers when nothing fails ---------------------------------

  /** The first operation that is not allowed decides the error. */
  function FirstIllegal(ops: seq<Operation>): Option<WriterError> {
    if ops == [] then None
    else if ops[0].delete && !ops[0].optional then Some(RequiredDelete)
    else if !ops[0].delete && ops[0].value.None? then Some(ParseFailed)
    else FirstIllegal(ops[1..])
  }

  function RequestError(sources: map<string, SourceConfig>, id: string, ops: seq<Operation>): Option<WriterError> {
    if id !in sources then Some(SourceNotFound)
    else if !sources[id].controlled then Some(NotWritable)
    else FirstIllegal(ops)
  }

  /** Why given bytes are not rewritten. */
  function BytesFailure(bytes: string, maximum: nat, ops: seq<Operation>): Option<WriterError> {
    var parsed := EnvFile.ParseSource(bytes, maximum);
    if ops == [] || parsed.Err? || !SingleDefinitions(parsed.value, ops) then Some(ParseFailed)
    else
      var next := Updated(bytes, parsed.value, ops);
      if next.None? then Some(AdapterRejected)
      else if |next.value| > maximum then Some(TooLarge)
      else if EnvFile.ParseSource(next.value, maximum).Err? then Some(ParseFailed)
      else None
  }

  /** Why a write fails without any fault of the file system; None when it succeeds. */
  function WriteFailure(sources: map<string, SourceConfig>, files: map<string, string>, id: string, expected: Fingerprint,
                        ops: seq<Operation>): Option<WriterError>
  {
    var request := RequestError(sources, id, ops);
    if request.Some? then request
    else if id !in files then Some(SourceNotFound)
    else if Fingerprint(id, files[id]) != expected then Some(SourceChanged)
    else BytesFailure(files[id], sources[id].maximum, ops)
  }

  function RestoreFailure(sources: map<string, SourceConfig>, files: map<string, string>, id: string, bytes: string): Option<WriterError> {
    if id !in sources then Some(SourceNotFound)
    else if !sources[id].controlled then Some(NotWritable)
    else if id !in files then Some(SourceNotFound)
    else if |bytes| > sources[id].maximum then Some(TooLarge)
    else None
  }

  /** The answer is the one that is due. */
  predicate Answers<T>(r: Result<T, WriterError>, failure: Option<WriterError>) {
    if failure.Some? then r == Err(failure.value) else r.Ok?
  }

  lemma {:induction false} AllowedIs(ops: seq<Operation>)
    ensures FirstIllegal(ops).None? <==> AllLegal(ops)
  {
    if ops != [] {
      AllowedIs(ops[1..]);
      assert ops == [ops[0]] + ops[1..];
      assert FirstIllegal(ops).None? ==> forall i :: 0 < i < |ops| ==> ops[i] == ops[1..][i - 1];
      if AllLegal(ops) {
        assert Legal(ops[0]);
        assert forall i :: 0 <= i < |ops[1..]| ==> ops[1..][i] == ops[i + 1];
      }
    }
  }

  lemma {:induction false} LegalSoFar(ops: seq<Operation>, i: nat)
    requires i <= |ops| && forall j :: 0 <= j < i ==> Legal(ops[j])
    ensures FirstIllegal(ops) == FirstIllegal(ops[i..])
  {
    if i > 0 {
      LegalSoFar(ops[1..], i - 1);
      assert ops[1..][i - 1..] == ops[i..] && Legal(ops[0]);
    } else {
      assert ops[0..] == ops;
    }
  }

  class Disk {
    const sources: map<string, SourceConfig>
    var files: map<string, string>
    /** The sources whose file was replaced, in order. */
    ghost var replaced: seq<string>
    /** How often the file system failed. */
    ghost var faults: nat

    constructor (sources: map<string, SourceConfig>, files: map<string, string>)
      ensures this.sources == sources && this.files == files && replaced == [] && faults == 0
    {
      this.sources, this.files, replaced, faults := sources, files, [], 0;
    }

    /** The file system does what it was asked for, or fails. */
    method Io() returns (ok: bool)
      modifies this`faults
      ensures faults == old(faults) + if ok then 0 else 1
    {
      ok := *;
      if !ok { faults := faults + 1; }
    }

    /** Read a source; it may fail. */
    method ReadCurrent(id: string) returns (r: Result<string, WriterError>)
      modifies this`faults
      ensures if r.Ok? then id in sources && id in files && files[id] == r.value else r.error == SourceNotFound
      ensures old(faults) <= faults && (faults == old(faults) && id in sources && id in files ==> r.Ok?)
    {
      var readable := Io();
      if id !in sources || id !in files || !readable { return Err(SourceNotFound); }
      return Ok(files[id]);
    }

    /** Append a piece of the bytes from the offset on; the file system decides how long it is. */
    method AppendPiece(temporary: string, bytes: string, offset: nat) returns (ok: bool, next: string)
      requires offset < |bytes| && temporary == bytes[..offset]
      modifies this`faults
      ensures faults == old(faults) + if ok then 0 else 1
      ensures ok ==> offset < |next| <= |bytes| && next == bytes[..|next|]
    {
      next := temporary;
      ok := Io();
      if !ok { return; }
      var written: nat := *;
      next := bytes[..if offset < written <= |bytes| then written else |bytes|];
    }

    /** Write the bytes to a temporary file piece by piece, then rename it over the source. */
    method WriteAtomically(id: string, bytes: string, maximum: nat) returns (r: Result<(), WriterError>)
      modifies this`files, this`replaced, this`faults
      ensures (files == old(files) && replaced == old(replaced)) ||
              (|bytes| <= maximum && files == old(files)[id := bytes] && replaced == old(replaced) + [id])
      ensures r.Ok? ==> files == old(files)[id := bytes] && replaced == old(replaced) + [id]
      ensures r.Err? ==> r.error in {TooLarge, WriteFailed}
      ensures old(faults) <= faults
      ensures faults == old(faults) ==> Answers(r, if |bytes| > maximum then Some(TooLarge) else None)
    {
      if |bytes| > maximum { return Err(TooLarge); }
      var temporary, ready := "", true;
      while |temporary| < |bytes|
        invariant |temporary| <= |bytes| && temporary == bytes[..|temporary|] && faults == old(faults)
        invariant files == old(files) && replaced == old(replaced)
        decreases |bytes| - |temporary|
      {
        ready, temporary := AppendPiece(temporary, bytes, |temporary|);
        if !ready { return Err(WriteFailed); }
      }
      ready := Io();
      if !ready { return Err(WriteFailed); }
      assert bytes[..|bytes|] == bytes;
      files := files[id := temporary];
      replaced := replaced + [id];
      var synced := Io();
      if !synced { return Err(WriteFailed); }
      return Ok(());
    }

    /**
     One write: it changes nothing, or replaces this source's bytes by their rewriting, and then only when they had the
     expected fingerprint. A failure may come after the replacement. Unless the file system fails, the request and the bytes
     decide the answer.
     */
    method Write(id: string, expected: Fingerprint, ops: seq<Operation>) returns (r: Result<Fingerprint, WriterError>)
      modifies this`files, this`replaced, this`faults
      ensures (files == old(files) && replaced == old(replaced)) ||
              (id in sources && id in old(files) && Fingerprint(id, old(files)[id]) == expected &&
               Rewrite(old(files)[id], sources[id].maximum, ops).Some? && replaced == old(replaced) + [id] &&
               files == old(files)[id := Rewrite(old(files)[id], sources[id].maximum, ops).value])
      ensures r.Ok? ==> replaced == old(replaced) + [id] && r.value == Fingerprint(id, files[id]) &&
                        EnvFile.ParseSource(files[id], sources[id].maximum).Ok?
      ensures r == Err(SourceChanged) ==> files == old(files) && replaced == old(replaced)
      ensures old(faults) <= faults
      ensures faults == old(faults) ==> Answers(r, WriteFailure(sources, old(files), id, expected, ops))
    {
      var request := CheckRequest(id, ops);
      if request.Err? { return Err(request.error); }
      var maximum := sources[id].maximum;
      var current := ReadCurrent(id);
      if current.Err? { return Err(current.error); }
      if Fingerprint(id, current.value) != expected { return Err(SourceChanged); }
      var stable := Io();
      if !stable { return Err(MetadataDrift); }
      var next := Serialize(current.value, maximum, ops);
      if next.Err? { return Err(next.error); }
      var written := WriteAtomically(id, next.value, maximum);
      if written.Err? { return Err(written.error); }
      r := ReadBack(id);
    }

    /** Only legal operations on a controlled source are carried out. */
    method CheckRequest(id: string, ops: seq<Operation>) returns (r: Result<(), WriterError>)
      ensures Answers(r, RequestError(sources, id, ops))
      ensures r.Ok? ==> AllLegal(ops)
    {
      if id !in sources { return Err(SourceNotFound); }
      if !sources[id].controlled { return Err(NotWritable); }
      for i := 0 to |ops|
        invariant forall j :: 0 <= j < i ==> Legal(ops[j])
      {
        LegalSoFar(ops, i);
        if ops[i].delete && !ops[i].optional { return Err(RequiredDelete); }
        if !ops[i].delete && ops[i].value.None? { return Err(ParseFailed); }
      }
      AllowedIs(ops);
      return Ok(());
    }

    /** The written source must still parse. */
    method ReadBack(id: string) returns (r: Result<Fingerprint, WriterError>)
      requires id in sources && id in files
      modifies this`faults
      ensures old(faults) <= faults
      ensures faults == old(faults) ==>
                Answers(r, if EnvFile.ParseSource(files[id], sources[id].maximum).Err? then Some(ParseFailed) else None)
      ensures r.Ok? ==> id in files && r.value == Fingerprint(id, files[id]) &&
                        EnvFile.ParseSource(files[id], sources[id].maximum).Ok?
      ensures r.Err? ==> r.error in {SourceNotFound, VerifyFailed, ParseFailed}
    {
      var after := ReadCurrent(id);
      if after.Err? { return Err(after.error); }
      var kept := Io();
      if !kept { return Err(VerifyFailed); }
      var reparsed := EnvFile.ParseTextAssignments(after.value, sources[id].maximum);
      if reparsed.Err? { return Err(ParseFailed); }
      return Ok(Fingerprint(id, after.value));
    }

    /** Put given bytes back, whatever the source holds. */
    method Restore(id: string, bytes: string) returns (r: Result<Fingerprint, WriterError>)
      modifies this`files, this`replaced, this`faults
      ensures (files == old(files) && replaced == old(replaced)) ||
              (id in sources && files == old(files)[id := bytes] && replaced == old(replaced) + [id])
      ensures r.Ok? ==> id in files && files[id] == bytes && replaced == old(replaced) + [id]
      ensures old(faults) <= faults
      ensures faults == old(faults) ==> Answers(r, RestoreFailure(sources, old(files), id, bytes))
    {
      if id !in sources { return Err(SourceNotFound); }
      if !sources[id].controlled { return Err(NotWritable); }
      var current := ReadCurrent(id);
      if current.Err? { return Err(current.error); }
      var target := Io();
      if !target { return Err(MetadataDrift); }
      var written := WriteAtomically(id, bytes, sources[id].maximum);
      if written.Err? { return Err(written.error); }
      var after := ReadCurrent(id);
      if after.Err? { return Err(after.error); }
      var kept := Io();
      if !kept { return Err(VerifyFailed); }
      return Ok(Fingerprint(id, after.value));
    }
  }
}
