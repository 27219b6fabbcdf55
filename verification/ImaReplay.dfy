/** ima_replay.c: replays a Linux IMA log into PCR 10. The hash is an uninterpreted
    function; the file is read through a source that may return short reads. */
module ImaReplay {
  import opened Bytes
  import opened Hashing

  const MAX_BYTES: nat := 64 * 1024 * 1024
  const MAX_DATA: nat := 65536
  const MAX_RECORDS: nat := 100000

  datatype Error =
    | ByteLimit | Truncated | RecordLimit | UnsupportedPcr | TemplateNameSize | UnsupportedTemplate
    | TemplateDataSize | InvalidFields | Violation | DigestMismatch | EmptyLog | SourceFailed

  datatype Template = ImaNg | ImaSig {
    function Name(): (s: seq<byte>)
      ensures |s| == if ImaNg? then 6 else 7
    {
      if ImaNg? then [0x69, 0x6D, 0x61, 0x2D, 0x6E, 0x67] else [0x69, 0x6D, 0x61, 0x2D, 0x73, 0x69, 0x67]
    }

    function Fields(): nat {
      if ImaNg? then 2 else 3
    }
  }

  datatype Record = Record(digest: Digest, template: Template, data: seq<byte>)

  // ---- Template data

  /** An algorithm name with its NUL, and the digest length that must follow. */
  const ALGORITHMS: seq<(seq<byte>, nat)> := [
    ([0x73, 0x68, 0x61, 0x31, 0x3A, 0], 20),
    ([0x73, 0x68, 0x61, 0x32, 0x35, 0x36, 0x3A, 0], 32),
    ([0x73, 0x68, 0x61, 0x33, 0x38, 0x34, 0x3A, 0], 48),
    ([0x73, 0x68, 0x61, 0x35, 0x31, 0x32, 0x3A, 0], 64)
  ]

  predicate DigestField(field: seq<byte>) {
    exists i :: 0 <= i < |ALGORITHMS| &&
      |field| == |ALGORITHMS[i].0| + ALGORITHMS[i].1 && ALGORITHMS[i].0 <= field
  }

  /** One C string of at most 4096 bytes, its only NUL at the end. */
  predicate PathField(field: seq<byte>) {
    && 1 <= |field| <= 4096
    && field[|field| - 1] == 0
    && forall i :: 0 <= i < |field| - 1 ==> field[i] != 0
  }

  predicate FieldAllowed(index: nat, field: seq<byte>) {
    (index == 0 ==> DigestField(field)) && (index == 1 ==> PathField(field))
  }

  /** Where a length-prefixed field starting at `offset` ends, if it fits and is allowed. */
  function FieldEnd(data: seq<byte>, offset: nat, index: nat): (end: int)
    requires offset <= |data|
    ensures end == -1 || offset + 4 <= end <= |data|
  {
    if |data| - offset < 4 then -1
    else
      var length := FromLittle(data[offset..offset + 4]);
      if length > |data| - offset - 4 then -1
      else if FieldAllowed(index, data[offset + 4..offset + 4 + length]) then offset + 4 + length else -1
  }

  predicate FieldsFrom(data: seq<byte>, offset: nat, index: nat, fields: nat)
    requires offset <= |data| && index <= fields
    decreases fields - index
  {
    if index == fields then offset == |data|
    else
      var end := FieldEnd(data, offset, index);
      end >= 0 && FieldsFrom(data, end, index + 1, fields)
  }

  predicate FieldsValid(data: seq<byte>, fields: nat) {
    FieldsFrom(data, 0, 0, fields)
  }

  /** No template data is valid both with two fields and with three. */
  lemma TemplateFromData(data: seq<byte>)
    ensures !(FieldsValid(data, 2) && FieldsValid(data, 3))
  {
    var first := FieldEnd(data, 0, 0);
    if first >= 0 {
      var second := FieldEnd(data, first, 1);
      if second >= 0 {
        assert FieldsFrom(data, first, 1, 2) == FieldsFrom(data, second, 2, 2);
        assert FieldsFrom(data, first, 1, 3) == FieldsFrom(data, second, 2, 3);
      }
    }
  }

  /** "sha1:", "sha256:", "sha384:" or "sha512:" with a NUL, and a digest of that size. */
  predicate NamedDigest(f: seq<byte>) {
    || (|f| == 26 && f[..6] == [0x73, 0x68, 0x61, 0x31, 0x3A, 0])
    || (|f| == 40 && f[..8] == [0x73, 0x68, 0x61, 0x32, 0x35, 0x36, 0x3A, 0])
    || (|f| == 56 && f[..8] == [0x73, 0x68, 0x61, 0x33, 0x38, 0x34, 0x3A, 0])
    || (|f| == 72 && f[..8] == [0x73, 0x68, 0x61, 0x35, 0x31, 0x32, 0x3A, 0])
  }

  /** A path: up to 4095 nonzero bytes and a NUL. */
  predicate TerminatedPath(f: seq<byte>) {
    1 <= |f| <= 4096 && f[|f| - 1] == 0 && forall i :: 0 <= i < |f| - 1 ==> f[i] != 0
  }

  function Prefixed(f: seq<byte>): seq<byte> {
    Little(|f|, 4) + f
  }

  ghost predicate IsImaNg(data: seq<byte>, digest: seq<byte>, path: seq<byte>) {
    NamedDigest(digest) && TerminatedPath(path) && data == Prefixed(digest) + Prefixed(path)
  }

  ghost predicate IsImaSig(data: seq<byte>, digest: seq<byte>, path: seq<byte>, signature: seq<byte>) {
    && NamedDigest(digest) && TerminatedPath(path) && |signature| <= U32_MAX
    && data == Prefixed(digest) + Prefixed(path) + Prefixed(signature)
  }

  lemma DigestFieldIs(f: seq<byte>)
    ensures DigestField(f) <==> NamedDigest(f)
  {
    assert |ALGORITHMS| == 4;
    assert DigestField(f) <==>
           || (|f| == |ALGORITHMS[0].0| + ALGORITHMS[0].1 && ALGORITHMS[0].0 <= f)
           || (|f| == |ALGORITHMS[1].0| + ALGORITHMS[1].1 && ALGORITHMS[1].0 <= f)
           || (|f| == |ALGORITHMS[2].0| + ALGORITHMS[2].1 && ALGORITHMS[2].0 <= f)
           || (|f| == |ALGORITHMS[3].0| + ALGORITHMS[3].1 && ALGORITHMS[3].0 <= f);
  }

  lemma SizeRead(w: seq<byte>, n: nat)
    requires n <= U32_MAX && w == Little(n, 4)
    ensures FromLittle(w) == n
  {
    PowValues();
    LittleRoundTrip(n, 4);
  }

  lemma FieldEndAt(data: seq<byte>, offset: nat, index: nat, n: nat)
    requires offset + 4 + n <= |data| && FromLittle(data[offset..offset + 4]) == n
    ensures FieldEnd(data, offset, index) ==
            if FieldAllowed(index, data[offset + 4..offset + 4 + n]) then offset + 4 + n else -1
  {
  }

  lemma FieldRead(data: seq<byte>, offset: nat, index: nat) returns (f: seq<byte>)
    requires offset <= |data| && FieldEnd(data, offset, index) >= 0
    ensures FieldAllowed(index, f) && |f| <= U32_MAX
    ensures FieldEnd(data, offset, index) == offset + 4 + |f| && data[offset..offset + 4 + |f|] == Prefixed(f)
  {
    PowValues();
    LittleBytes(data[offset..offset + 4]);
    f := data[offset + 4..FieldEnd(data, offset, index)];
    Consecutive(data, offset, offset + 4, offset + 4 + |f|);
  }

  lemma DigestThere(data: seq<byte>, n: nat)
    requires 4 + n <= |data| && FromLittle(data[0..4]) == n && NamedDigest(data[4..4 + n])
    ensures FieldEnd(data, 0, 0) == 4 + n
  {
    DigestFieldIs(data[4..4 + n]);
    FieldEndAt(data, 0, 0, n);
  }

  lemma PathThere(data: seq<byte>, at: nat, held: seq<byte>)
    requires at + 4 + |held| <= |data| && FromLittle(data[at..at + 4]) == |held|
    requires held == data[at + 4..at + 4 + |held|] && TerminatedPath(held)
    ensures FieldEnd(data, at, 1) == at + 4 + |held|
  {
    assert FieldAllowed(1, held);
    FieldEndAt(data, at, 1, |held|);
  }

  lemma DigestPlaced(data: seq<byte>, digest: seq<byte>, size: seq<byte>, held: seq<byte>)
    requires NamedDigest(digest) && 4 + |digest| <= |data|
    requires size == data[0..4] && size == Little(|digest|, 4) && held == data[4..4 + |digest|] && held == digest
    ensures FieldEnd(data, 0, 0) == 4 + |digest|
  {
    SizeRead(size, |digest|);
    DigestThere(data, |digest|);
  }

  lemma PathPlaced(data: seq<byte>, at: nat, path: seq<byte>, size: seq<byte>, held: seq<byte>)
    requires TerminatedPath(path) && at + 4 + |path| <= |data|
    requires size == data[at..at + 4] && size == Little(|path|, 4) && held == data[at + 4..at + 4 + |path|] && held == path
    ensures FieldEnd(data, at, 1) == at + 4 + |path|
  {
    SizeRead(size, |path|);
    PathThere(data, at, held);
  }

  /** The digest field comes first, then the path. */
  lemma TwoFieldsThere(data: seq<byte>, digest: seq<byte>, path: seq<byte>, next: nat, last: nat)
    requires NamedDigest(digest) && TerminatedPath(path)
    requires next == 4 + |digest| && last == next + 4 + |path| <= |data|
    requires data[0..4] == Little(|digest|, 4) && data[4..4 + |digest|] == digest
    requires data[next..next + 4] == Little(|path|, 4) && data[next + 4..next + 4 + |path|] == path
    ensures FieldEnd(data, 0, 0) == next && FieldEnd(data, next, 1) == last
  {
    DigestPlaced(data, digest, data[0..4], data[4..4 + |digest|]);
    PathPlaced(data, next, path, data[next..next + 4], data[next + 4..next + 4 + |path|]);
  }

  lemma NgIsValid(data: seq<byte>, digest: seq<byte>, path: seq<byte>)
    requires IsImaNg(data, digest, path)
    ensures FieldsValid(data, 2)
  {
    var next, last := 4 + |digest|, 8 + |digest| + |path|;
    assert data[0..4] == Little(|digest|, 4) && data[4..next] == digest;
    assert data[next..next + 4] == Little(|path|, 4) && data[next + 4..last] == path;
    TwoFieldsThere(data, digest, path, next, last);
    assert FieldsFrom(data, last, 2, 2);
    assert FieldsFrom(data, next, 1, 2);
  }

  lemma SigIsValid(data: seq<byte>, digest: seq<byte>, path: seq<byte>, signature: seq<byte>)
    requires IsImaSig(data, digest, path, signature)
    ensures FieldsValid(data, 3)
  {
    var next, last := 4 + |digest|, 8 + |digest| + |path|;
    assert data[0..4] == Little(|digest|, 4) && data[4..next] == digest;
    assert data[next..next + 4] == Little(|path|, 4) && data[next + 4..last] == path;
    assert data[last..last + 4] == Little(|signature|, 4);
    TwoFieldsThere(data, digest, path, next, last);
    SizeRead(data[last..last + 4], |signature|);
    FieldEndAt(data, last, 2, |signature|);
    assert FieldsFrom(data, last + 4 + |signature|, 3, 3);
    assert FieldsFrom(data, last, 2, 3);
    assert FieldsFrom(data, next, 1, 3);
  }

  lemma ValidIsNg(data: seq<byte>) returns (digest: seq<byte>, path: seq<byte>)
    requires FieldsValid(data, 2)
    ensures IsImaNg(data, digest, path)
  {
    digest := FieldRead(data, 0, 0);
    DigestFieldIs(digest);
    var next := 4 + |digest|;
    assert FieldsFrom(data, next, 1, 2);
    path := FieldRead(data, next, 1);
    assert FieldsFrom(data, next + 4 + |path|, 2, 2);
    Consecutive(data, 0, next, |data|);
    assert data[0..|data|] == data;
  }

  lemma ValidIsSig(data: seq<byte>) returns (digest: seq<byte>, path: seq<byte>, signature: seq<byte>)
    requires FieldsValid(data, 3)
    ensures IsImaSig(data, digest, path, signature)
  {
    digest := FieldRead(data, 0, 0);
    DigestFieldIs(digest);
    var next := 4 + |digest|;
    assert FieldsFrom(data, next, 1, 3);
    path := FieldRead(data, next, 1);
    var last := next + 4 + |path|;
    assert FieldsFrom(data, last, 2, 3);
    signature := FieldRead(data, last, 2);
    assert FieldsFrom(data, last + 4 + |signature|, 3, 3);
    Consecutive(data, 0, next, last);
    Consecutive(data, 0, last, |data|);
    assert data[0..|data|] == data;
  }

  /** The template data that is accepted: a named digest and a path, and for ima-sig one
      more field of any content. */
  lemma FieldsExactly(data: seq<byte>)
    ensures FieldsValid(data, 2) <==> exists digest, path :: IsImaNg(data, digest, path)
    ensures FieldsValid(data, 3) <==> exists digest, path, signature :: IsImaSig(data, digest, path, signature)
  {
    if FieldsValid(data, 2) {
      var digest, path := ValidIsNg(data);
    } else if digest, path :| IsImaNg(data, digest, path) {
      NgIsValid(data, digest, path);
    }
    if FieldsValid(data, 3) {
      var digest, path, signature := ValidIsSig(data);
    } else if digest, path, signature :| IsImaSig(data, digest, path, signature) {
      SigIsValid(data, digest, path, signature);
    }
  }

  method CheckDigestField(field: seq<byte>) returns (ok: bool)
    ensures ok == DigestField(field)
  {
    var i := 0;
    while i < 4
      invariant 0 <= i <= 4
      invariant forall k :: 0 <= k < i ==> !(|field| == |ALGORITHMS[k].0| + ALGORITHMS[k].1 && ALGORITHMS[k].0 <= field)
    {
      if |field| == |ALGORITHMS[i].0| + ALGORITHMS[i].1 && ALGORITHMS[i].0 <= field {
        return true;
      }
      i := i + 1;
    }
    return false;
  }

  method CheckFields(data: seq<byte>, fields: nat) returns (ok: bool)
    ensures ok == FieldsValid(data, fields)
  {
    var offset, field := 0, 0;
    while field < fields
      invariant 0 <= field <= fields && 0 <= offset <= |data|
      invariant FieldsValid(data, fields) == FieldsFrom(data, offset, field, fields)
    {
      if |data| - offset < 4 {
        return false;
      }
      var length := ReadLittle(data, offset, 4);
      offset := offset + 4;
      if length > |data| - offset {
        return false;
      }
      if field == 0 {
        var known := CheckDigestField(data[offset..offset + length]);
        if !known {
          return false;
        }
      }
      if field == 1 && !PathField(data[offset..offset + length]) {
        return false;
      }
      offset := offset + length;
      field := field + 1;
    }
    return offset == |data|;
  }

  // ---- The accepted language, independently of how it is read

  function Encoded(r: Record): (s: seq<byte>) {
    Little(10, 4) + r.digest + Little(|r.template.Name()|, 4) + r.template.Name() +
    Little(|r.data|, 4) + r.data
  }

  predicate WellFormed(hash: Hash, r: Record) {
    && 1 <= |r.data| <= MAX_DATA
    && FieldsValid(r.data, r.template.Fields())
    && NonZero(r.digest)
    && hash(r.data) == r.digest
  }

  function EncodedLog(records: seq<Record>): seq<byte> {
    if records == [] then [] else Encoded(records[0]) + EncodedLog(records[1..])
  }

  /** TPM 2.0 Library, Part 1, section 17.2: extend replaces the PCR by the hash of the
      old value followed by the digest. */
  function Extend(hash: Hash, pcr: Digest, digest: Digest): Digest {
    hash(pcr + digest)
  }

  function Fold(hash: Hash, pcr: Digest, records: seq<Record>): Digest
    decreases |records|
  {
    if records == [] then pcr
    else Fold(hash, Extend(hash, pcr, records[0].digest), records[1..])
  }

  // ---- The replayer as a function of the whole file

  datatype Taken = Got | End | Stop(error: Error)

  function Take(log: seq<byte>, at: nat, length: nat): Taken
    requires at <= |log|
  {
    if length > MAX_BYTES - at then Stop(ByteLimit)
    else if at + length <= |log| then Got
    else if at == |log| then End
    else Stop(Truncated)
  }

  function Refusal(t: Taken): Error
    requires !t.Got?
  {
    if t.End? then Truncated else t.error
  }

  datatype Parsed = Parsed(record: Record, next: nat) | Bad(error: Error)

  /** The rest of a record whose first four bytes are already there. */
  function ReadRecord(hash: Hash, log: seq<byte>, at: nat): (p: Parsed)
    requires at + 4 <= |log| && at + 4 <= MAX_BYTES
    ensures p.Parsed? ==> at + 44 < p.next <= |log| && p.next <= MAX_BYTES
  {
    var t := Take(log, at + 4, 36);
    if !t.Got? then Bad(Refusal(t))
    else if FromLittle(log[at..at + 4]) != 10 then Bad(UnsupportedPcr)
    else
      var digest: Digest := log[at + 4..at + 36];
      var nameLength := FromLittle(log[at + 36..at + 40]);
      if nameLength == 0 || nameLength > 32 then Bad(TemplateNameSize)
      else
        var t := Take(log, at + 40, nameLength);
        if !t.Got? then Bad(Refusal(t))
        else
          var name := log[at + 40..at + 40 + nameLength];
          if name != ImaNg.Name() && name != ImaSig.Name() then Bad(UnsupportedTemplate)
          else ReadData(hash, log, at + 40 + nameLength, digest, if name == ImaNg.Name() then ImaNg else ImaSig)
  }

  datatype Verdict = Sound | Flawed(error: Error)

  /** The checks on a complete record, in the order they are made. */
  function Flaw(hash: Hash, r: Record): (v: Verdict)
    requires 1 <= |r.data| <= MAX_DATA
    ensures v.Sound? <==> WellFormed(hash, r)
  {
    if !FieldsValid(r.data, r.template.Fields()) then Flawed(InvalidFields)
    else if !NonZero(r.digest) then Flawed(Violation)
    else if hash(r.data) != r.digest then Flawed(DigestMismatch)
    else Sound
  }

  function ReadData(hash: Hash, log: seq<byte>, at: nat, digest: Digest, template: Template): (p: Parsed)
    requires at <= |log| && at <= MAX_BYTES
    ensures p.Parsed? ==> at + 4 < p.next <= |log| && p.next <= MAX_BYTES
  {
    var t := Take(log, at, 4);
    if !t.Got? then Bad(Refusal(t))
    else
      var length := FromLittle(log[at..at + 4]);
      if length == 0 || length > MAX_DATA then Bad(TemplateDataSize)
      else
        var t := Take(log, at + 4, length);
        if !t.Got? then Bad(Refusal(t))
        else
          var r := Record(digest, template, log[at + 4..at + 4 + length]);
          match Flaw(hash, r)
          case Sound => Parsed(r, at + 4 + length)
          case Flawed(error) => Bad(error)
  }

  /** A read that cannot be filled: past the byte limit, or past the end of the file. */
  function Short(end: nat): Error {
    if end > 67108864 then ByteLimit else Truncated
  }

  /** The second half of a record, from the data length on: why it is refused. */
  lemma DataRefusedExactly(hash: Hash, log: seq<byte>, at: nat, digest: Digest, template: Template)
    requires at <= |log| <= MAX_BYTES
    ensures var p := ReadData(hash, log, at, digest, template);
            var counted := at + 4 <= |log|;
            var m := if counted then FromLittle(log[at..at + 4]) else 0;
            var bounded := counted && 1 <= m <= 65536;
            var whole := bounded && at + 4 + m <= |log|;
            var data := if whole then log[at + 4..at + 4 + m] else [];
            var valid := whole && FieldsValid(data, if template.ImaNg? then 2 else 3);
            var nonzero := valid && NonZero(digest);
            var matching := nonzero && hash(data) == digest;
            && (p.Parsed? <==> matching)
            && (p.Parsed? ==> p == Parsed(Record(digest, template, data), at + 4 + m))
            && (!counted ==> p == Bad(Short(at + 4))) && (bounded && !whole ==> p == Bad(Short(at + 4 + m)))
            && (p == Bad(TemplateDataSize) <==> counted && !bounded)
            && (p == Bad(InvalidFields) <==> whole && !valid)
            && (p == Bad(Violation) <==> valid && !nonzero)
            && (p == Bad(DigestMismatch) <==> nonzero && !matching)
  {
  }

  /** And the first half, from the PCR number to the template name. */
  lemma RecordRefusedExactly(hash: Hash, log: seq<byte>, at: nat)
    requires at + 4 <= |log| <= MAX_BYTES
    ensures var p := ReadRecord(hash, log, at);
            var head := at + 40 <= |log|;
            var pcr10 := head && FromLittle(log[at..at + 4]) == 10;
            var n := if pcr10 then FromLittle(log[at + 36..at + 40]) else 0;
            var sized := pcr10 && 1 <= n <= 32;
            var named := sized && at + 40 + n <= |log|;
            var name := if named then log[at + 40..at + 40 + n] else [];
            var ng := name == [0x69, 0x6D, 0x61, 0x2D, 0x6E, 0x67];
            var sig := name == [0x69, 0x6D, 0x61, 0x2D, 0x73, 0x69, 0x67];
            && (!head ==> p == Bad(Short(at + 40))) && (sized && !named ==> p == Bad(Short(at + 40 + n)))
            && (p == Bad(UnsupportedPcr) <==> head && !pcr10)
            && (p == Bad(TemplateNameSize) <==> pcr10 && !sized)
            && (p == Bad(UnsupportedTemplate) <==> named && !ng && !sig)
            && (ng ==> p == ReadData(hash, log, at + 40 + n, log[at + 4..at + 36], ImaNg))
            && (sig ==> p == ReadData(hash, log, at + 40 + n, log[at + 4..at + 36], ImaSig))
  {
  }

  datatype Outcome = Replayed(pcr: Digest, records: seq<Record>) | Rejected(error: Error)

  function ReplayFrom(hash: Hash, log: seq<byte>, at: nat, pcr: Digest, done: seq<Record>): Outcome
    requires at <= |log| && at <= MAX_BYTES
    decreases |log| - at
  {
    match Take(log, at, 4)
    case Stop(error) => Rejected(error)
    case End => if done == [] then Rejected(EmptyLog) else Replayed(pcr, done)
    case Got =>
      if |done| >= MAX_RECORDS then Rejected(RecordLimit)
      else
        match ReadRecord(hash, log, at)
        case Bad(error) => Rejected(error)
        case Parsed(r, next) => ReplayFrom(hash, log, next, Extend(hash, pcr, r.digest), done + [r])
  }

  function Replay(hash: Hash, log: seq<byte>): Outcome {
    ReplayFrom(hash, log, 0, Zeros(32), [])
  }

  // ---- What is accepted, exactly

  lemma SixParts(a: seq<byte>, b: seq<byte>, c: seq<byte>, d: seq<byte>, e: seq<byte>, f: seq<byte>)
    requires |a| == 4 && |b| == 32 && |c| == 4 && |e| == 4
    ensures var s, n := a + b + c + d + e + f, |d|;
            && |s| == 44 + n + |f|
            && s[..4] == a && s[4..36] == b && s[36..40] == c && s[40..40 + n] == d
            && s[40 + n..44 + n] == e && s[44 + n..] == f
  {
  }

  lemma EncodedParts(r: Record)
    requires |r.data| <= MAX_DATA
    ensures var e, n := Encoded(r), |r.template.Name()|;
            && |e| == 44 + n + |r.data|
            && FromLittle(e[..4]) == 10
            && e[4..36] == r.digest
            && FromLittle(e[36..40]) == n
            && e[40..40 + n] == r.template.Name()
            && FromLittle(e[40 + n..44 + n]) == |r.data|
            && e[44 + n..] == r.data
  {
    PowValues();
    var name := r.template.Name();
    SixParts(Little(10, 4), r.digest, Little(|name|, 4), name, Little(|r.data|, 4), r.data);
    LittleRoundTrip(10, 4);
    LittleRoundTrip(|name|, 4);
    LittleRoundTrip(|r.data|, 4);
  }

  lemma Within(s: seq<byte>, at: nat, part: seq<byte>, i: nat, j: nat)
    requires at + |part| <= |s| && s[at..at + |part|] == part && i <= j <= |part|
    ensures s[at + i..at + j] == part[i..j]
  {
    forall k | 0 <= k < j - i ensures s[at + i..at + j][k] == part[i..j][k] {
      assert part[i + k] == s[at..at + |part|][i + k];
    }
  }

  /** `log` holds the six parts of `r` from `at` on. */
  predicate HoldsRecord(log: seq<byte>, at: nat, r: Record) {
    var n := |r.template.Name()|;
    && at + 44 + n + |r.data| <= |log|
    && FromLittle(log[at..at + 4]) == 10
    && log[at + 4..at + 36] == r.digest
    && FromLittle(log[at + 36..at + 40]) == n
    && log[at + 40..at + 40 + n] == r.template.Name()
    && FromLittle(log[at + 40 + n..at + 44 + n]) == |r.data|
    && log[at + 44 + n..at + 44 + n + |r.data|] == r.data
  }

  lemma ReadsParts(hash: Hash, log: seq<byte>, at: nat, r: Record)
    requires WellFormed(hash, r) && HoldsRecord(log, at, r)
    requires at + 44 + |r.template.Name()| + |r.data| <= MAX_BYTES
    ensures ReadRecord(hash, log, at) == Parsed(r, at + 44 + |r.template.Name()| + |r.data|)
  {
    var n := |r.template.Name()|;
    assert ReadData(hash, log, at + 40 + n, r.digest, r.template) == Parsed(r, at + 44 + n + |r.data|);
  }

  lemma EncodedHolds(log: seq<byte>, at: nat, r: Record)
    requires |r.data| <= MAX_DATA && at + |Encoded(r)| <= |log| && log[at..at + |Encoded(r)|] == Encoded(r)
    ensures |Encoded(r)| == 44 + |r.template.Name()| + |r.data| && HoldsRecord(log, at, r)
  {
    var e, n := Encoded(r), |r.template.Name()|;
    EncodedParts(r);
    Within(log, at, e, 0, 4);
    Within(log, at, e, 4, 36);
    Within(log, at, e, 36, 40);
    Within(log, at, e, 40, 40 + n);
    Within(log, at, e, 40 + n, 44 + n);
    Within(log, at, e, 44 + n, |e|);
  }

  /** A well-formed record is read back, whatever follows it. */
  lemma ReadsEncoded(hash: Hash, log: seq<byte>, at: nat, r: Record)
    requires WellFormed(hash, r)
    requires at + |Encoded(r)| <= |log| && at + |Encoded(r)| <= MAX_BYTES
    requires log[at..at + |Encoded(r)|] == Encoded(r)
    ensures |Encoded(r)| >= 4
    ensures ReadRecord(hash, log, at) == Parsed(r, at + |Encoded(r)|)
  {
    EncodedHolds(log, at, r);
    ReadsParts(hash, log, at, r);
  }

  lemma SixSlices(s: seq<byte>, at: nat, n: nat, next: nat)
    requires at + 44 + n <= next <= |s|
    ensures s[at..at + 4] + s[at + 4..at + 36] + s[at + 36..at + 40] + s[at + 40..at + 40 + n] +
            s[at + 40 + n..at + 44 + n] + s[at + 44 + n..next] == s[at..next]
  {
    Consecutive(s, at, at + 4, at + 36);
    Consecutive(s, at, at + 36, at + 40);
    Consecutive(s, at, at + 40, at + 40 + n);
    Consecutive(s, at, at + 40 + n, at + 44 + n);
    Consecutive(s, at, at + 44 + n, next);
  }

  lemma WordBytes(s: seq<byte>, v: nat)
    requires |s| == 4 && FromLittle(s) == v
    ensures Little(v, 4) == s
  {
    LittleBytes(s);
  }

  lemma SixJoined(s: seq<byte>, at: nat, n: nat, next: nat,
                  a: seq<byte>, b: seq<byte>, c: seq<byte>, d: seq<byte>, e: seq<byte>, f: seq<byte>)
    requires at + 44 + n <= next <= |s|
    requires a == s[at..at + 4] && b == s[at + 4..at + 36] && c == s[at + 36..at + 40]
    requires d == s[at + 40..at + 40 + n] && e == s[at + 40 + n..at + 44 + n] && f == s[at + 44 + n..next]
    ensures a + b + c + d + e + f == s[at..next]
  {
    SixSlices(s, at, n, next);
  }

  lemma HeldIsEncoded(log: seq<byte>, at: nat, r: Record)
    requires HoldsRecord(log, at, r)
    ensures log[at..at + 44 + |r.template.Name()| + |r.data|] == Encoded(r)
  {
    var n := |r.template.Name()|;
    WordBytes(log[at..at + 4], 10);
    WordBytes(log[at + 36..at + 40], n);
    WordBytes(log[at + 40 + n..at + 44 + n], |r.data|);
    SixJoined(log, at, n, at + 44 + n + |r.data|,
              Little(10, 4), r.digest, Little(n, 4), r.template.Name(), Little(|r.data|, 4), r.data);
  }

  lemma ReadHolds(hash: Hash, log: seq<byte>, at: nat)
    requires at + 4 <= |log| && at + 4 <= MAX_BYTES
    requires ReadRecord(hash, log, at).Parsed?
    ensures var Parsed(r, next) := ReadRecord(hash, log, at);
            && WellFormed(hash, r) && HoldsRecord(log, at, r)
            && next == at + 44 + |r.template.Name()| + |r.data|
  {
  }

  /** And only the bytes of a well-formed record are read as one. */
  lemma EncodesRead(hash: Hash, log: seq<byte>, at: nat)
    requires at + 4 <= |log| && at + 4 <= MAX_BYTES
    requires ReadRecord(hash, log, at).Parsed?
    ensures var Parsed(r, next) := ReadRecord(hash, log, at);
            WellFormed(hash, r) && log[at..next] == Encoded(r)
  {
    ReadHolds(hash, log, at);
    HeldIsEncoded(log, at, ReadRecord(hash, log, at).record);
  }

  ghost predicate AllWellFormed(hash: Hash, records: seq<Record>) {
    forall i :: 0 <= i < |records| ==> WellFormed(hash, records[i])
  }

  lemma HeadTail<T>(s: seq<T>)
    requires s != []
    ensures [s[0]] + s[1..] == s
  {
  }

  /** A log that starts with `r` and goes on with `tail`. */
  lemma Prepended(hash: Hash, log: seq<byte>, at: nat, next: nat, pcr: Digest, done: seq<Record>, r: Record, tail: seq<Record>)
    requires at <= next <= |log| && log[at..next] == Encoded(r) && log[next..] == EncodedLog(tail)
    ensures log[at..] == EncodedLog([r] + tail)
    ensures Fold(hash, pcr, [r] + tail) == Fold(hash, Extend(hash, pcr, r.digest), tail)
    ensures done + [r] + tail == done + ([r] + tail)
  {
    assert ([r] + tail)[1..] == tail;
    Consecutive(log, at, next, |log|);
  }

  lemma Headed(hash: Hash, log: seq<byte>, at: nat, rest: seq<Record>) returns (next: nat)
    requires at <= |log| && log[at..] == EncodedLog(rest) && rest != [] && WellFormed(hash, rest[0])
    ensures at + 4 <= next == at + |Encoded(rest[0])| <= |log|
    ensures log[at..next] == Encoded(rest[0]) && log[next..] == EncodedLog(rest[1..])
  {
    var e := Encoded(rest[0]);
    next := at + |e|;
    Beheaded(log, at, e, EncodedLog(rest[1..]));
  }

  lemma {:induction false} OnlyRecords(hash: Hash, log: seq<byte>, at: nat, pcr: Digest, done: seq<Record>)
    returns (rest: seq<Record>)
    requires at <= |log| && at <= MAX_BYTES && |done| <= MAX_RECORDS
    requires ReplayFrom(hash, log, at, pcr, done).Replayed?
    ensures ReplayFrom(hash, log, at, pcr, done) == Replayed(Fold(hash, pcr, rest), done + rest)
    ensures log[at..] == EncodedLog(rest) && AllWellFormed(hash, rest)
    ensures 1 <= |done + rest| <= MAX_RECORDS && |log| + 4 <= MAX_BYTES
    decreases |log| - at
  {
    if Take(log, at, 4).End? {
      rest := [];
      assert done + [] == done;
    } else {
      var Parsed(r, next) := ReadRecord(hash, log, at);
      EncodesRead(hash, log, at);
      var tail := OnlyRecords(hash, log, next, Extend(hash, pcr, r.digest), done + [r]);
      rest := [r] + tail;
      Prepended(hash, log, at, next, pcr, done, r, tail);
    }
  }

  lemma ReplaysOne(hash: Hash, log: seq<byte>, at: nat, next: nat, pcr: Digest, done: seq<Record>, r: Record)
    requires WellFormed(hash, r) && |done| < MAX_RECORDS
    requires at <= next <= |log| && next <= MAX_BYTES && next == at + |Encoded(r)| && log[at..next] == Encoded(r)
    ensures ReplayFrom(hash, log, at, pcr, done) ==
            ReplayFrom(hash, log, next, Extend(hash, pcr, r.digest), done + [r])
  {
    ReadsEncoded(hash, log, at, r);
  }

  lemma {:induction false} Complete(hash: Hash, log: seq<byte>, at: nat, pcr: Digest, done: seq<Record>, rest: seq<Record>)
    requires at <= |log| && |log| + 4 <= MAX_BYTES
    requires log[at..] == EncodedLog(rest) && AllWellFormed(hash, rest)
    requires 1 <= |done + rest| <= MAX_RECORDS
    ensures ReplayFrom(hash, log, at, pcr, done) == Replayed(Fold(hash, pcr, rest), done + rest)
    decreases |rest|
  {
    if rest == [] {
      assert done + rest == done;
    } else {
      var next := Headed(hash, log, at, rest);
      ReplaysOne(hash, log, at, next, pcr, done, rest[0]);
      HeadTail(rest);
      Prepended(hash, log, at, next, pcr, done, rest[0], rest[1..]);
      Complete(hash, log, next, Extend(hash, pcr, rest[0].digest), done + [rest[0]], rest[1..]);
    }
  }

  /** A log is accepted if and only if it is a nonempty run of at most 100000
      well-formed records, 4 bytes or more short of 64 MiB; the reported PCR is the
      left fold of extend from zero. */
  lemma AcceptedExactly(hash: Hash, log: seq<byte>, pcr: Digest, records: seq<Record>)
    ensures Replay(hash, log) == Replayed(pcr, records) <==>
            && 1 <= |records| <= MAX_RECORDS && |log| <= MAX_BYTES - 4
            && AllWellFormed(hash, records) && log == EncodedLog(records)
            && pcr == Fold(hash, Zeros(32), records)
  {
    assert log[0..] == log;
    assert forall all: seq<Record> :: [] + all == all;
    if Replay(hash, log) == Replayed(pcr, records) {
      var rest := OnlyRecords(hash, log, 0, Zeros(32), []);
    } else if 1 <= |records| <= MAX_RECORDS && |log| <= MAX_BYTES - 4 && AllWellFormed(hash, records) && log == EncodedLog(records) {
      Complete(hash, log, 0, Zeros(32), [], records);
    }
  }

  lemma {:induction false} RefusedAtTheEnd(hash: Hash, log: seq<byte>, at: nat, pcr: Digest, done: seq<Record>, rest: seq<Record>)
    requires at <= |log| && MAX_BYTES - 4 < |log| <= MAX_BYTES
    requires log[at..] == EncodedLog(rest) && AllWellFormed(hash, rest) && |done + rest| <= MAX_RECORDS
    ensures ReplayFrom(hash, log, at, pcr, done) == Rejected(ByteLimit)
    decreases |rest|
  {
    if rest != [] {
      var next := Headed(hash, log, at, rest);
      ReplaysOne(hash, log, at, next, pcr, done, rest[0]);
      HeadTail(rest);
      Prepended(hash, log, at, next, pcr, done, rest[0], rest[1..]);
      RefusedAtTheEnd(hash, log, next, Extend(hash, pcr, rest[0].digest), done + [rest[0]], rest[1..]);
    }
  }

  /** Well-formed records that end within 4 bytes of 64 MiB are refused all the same: the
      read that would meet the end of file is counted first. */
  lemma NearLimitRefused(hash: Hash, records: seq<Record>)
    requires AllWellFormed(hash, records) && 1 <= |records| <= MAX_RECORDS
    requires MAX_BYTES - 4 < |EncodedLog(records)| <= MAX_BYTES
    ensures Replay(hash, EncodedLog(records)) == Rejected(ByteLimit)
  {
    var log := EncodedLog(records);
    assert log[0..] == log && [] + records == records;
    RefusedAtTheEnd(hash, log, 0, Zeros(32), [], records);
  }

  // ---- The final PCR determines the log

  /** What a replay hands to the extend hash. */
  ghost function Extensions(hash: Hash, pcr: Digest, records: seq<Record>): set<seq<byte>>
    decreases |records|
  {
    if records == [] then {}
    else
      var n := |records| - 1;
      Extensions(hash, pcr, records[..n]) + {Fold(hash, pcr, records[..n]) + records[n].digest}
  }

  ghost function Inputs(hash: Hash, records: seq<Record>): set<seq<byte>> {
    Extensions(hash, Zeros(32), records) + set i | 0 <= i < |records| :: records[i].data
  }

  /** No extension of this log hashes to the initial value of the PCR. */
  ghost predicate NeverBackToZero(hash: Hash, records: seq<Record>) {
    forall x :: x in Extensions(hash, Zeros(32), records) ==> hash(x) != Zeros(32)
  }

  lemma {:induction false} FoldLast(hash: Hash, pcr: Digest, records: seq<Record>)
    requires records != []
    ensures var n := |records| - 1;
            Fold(hash, pcr, records) == Extend(hash, Fold(hash, pcr, records[..n]), records[n].digest)
    decreases |records|
  {
    if |records| > 1 {
      var n := |records| - 1;
      assert records[1..][..n - 1] == records[..n][1..];
      FoldLast(hash, Extend(hash, pcr, records[0].digest), records[1..]);
    } else {
      assert records[1..] == [] && records[..0] == [];
    }
  }

  /** A replayed list whose hash inputs are all among `inputs`. */
  ghost predicate Covered(hash: Hash, inputs: set<seq<byte>>, records: seq<Record>) {
    && AllWellFormed(hash, records)
    && Inputs(hash, records) <= inputs
    && NeverBackToZero(hash, records)
  }

  lemma DropLast(hash: Hash, inputs: set<seq<byte>>, records: seq<Record>)
    requires records != [] && Covered(hash, inputs, records)
    ensures Covered(hash, inputs, records[..|records| - 1])
    ensures WellFormed(hash, records[|records| - 1]) && records[|records| - 1].data in inputs
    ensures Fold(hash, Zeros(32), records[..|records| - 1]) + records[|records| - 1].digest in inputs
  {
    var n := |records| - 1;
    assert records[n].data in Inputs(hash, records);
    forall x | x in Inputs(hash, records[..n]) ensures x in inputs {
      assert x in Inputs(hash, records);
    }
  }

  lemma SplitAt32(a: Digest, x: Digest, b: Digest, y: Digest)
    requires a + x == b + y
    ensures a == b && x == y
  {
    assert (a + x)[..32] == a && (b + y)[..32] == b;
    assert (a + x)[32..] == x && (b + y)[32..] == y;
  }

  /** One extension back: the same PCR after two records means the same record and
      the same PCR before. */
  lemma SameStep(hash: Hash, inputs: set<seq<byte>>, pcr: Digest, r: Record, pcr': Digest, r': Record)
    requires WellFormed(hash, r) && WellFormed(hash, r') && CollisionFree(hash, inputs)
    requires pcr + r.digest in inputs && pcr' + r'.digest in inputs && r.data in inputs && r'.data in inputs
    requires Extend(hash, pcr, r.digest) == Extend(hash, pcr', r'.digest)
    ensures pcr == pcr' && r == r'
  {
    assert pcr + r.digest == pcr' + r'.digest;
    SplitAt32(pcr, r.digest, pcr', r'.digest);
    TemplateFromData(r.data);
  }

  /** The last records of two replays that end in the same PCR. */
  lemma SameLast(hash: Hash, inputs: set<seq<byte>>, a: seq<Record>, b: seq<Record>)
    requires a != [] && b != [] && CollisionFree(hash, inputs)
    requires Covered(hash, inputs, a) && Covered(hash, inputs, b)
    requires Fold(hash, Zeros(32), a) == Fold(hash, Zeros(32), b)
    ensures a[|a| - 1] == b[|b| - 1]
    ensures Fold(hash, Zeros(32), a[..|a| - 1]) == Fold(hash, Zeros(32), b[..|b| - 1])
    ensures Covered(hash, inputs, a[..|a| - 1]) && Covered(hash, inputs, b[..|b| - 1])
  {
    DropLast(hash, inputs, a);
    DropLast(hash, inputs, b);
    FoldLast(hash, Zeros(32), a);
    FoldLast(hash, Zeros(32), b);
    SameStep(hash, inputs, Fold(hash, Zeros(32), a[..|a| - 1]), a[|a| - 1],
             Fold(hash, Zeros(32), b[..|b| - 1]), b[|b| - 1]);
  }

  lemma Resplit<T>(s: seq<T>)
    requires s != []
    ensures s[..|s| - 1] + [s[|s| - 1]] == s
  {
  }

  lemma NotEmptied(hash: Hash, records: seq<Record>)
    requires records != [] && NeverBackToZero(hash, records)
    ensures Fold(hash, Zeros(32), records) != Zeros(32)
  {
    FoldLast(hash, Zeros(32), records);
  }

  lemma {:induction false} SamePcrSameRecords(hash: Hash, inputs: set<seq<byte>>, a: seq<Record>, b: seq<Record>)
    requires Covered(hash, inputs, a) && Covered(hash, inputs, b) && CollisionFree(hash, inputs)
    requires Fold(hash, Zeros(32), a) == Fold(hash, Zeros(32), b)
    ensures a == b
    decreases |a|
  {
    if a == [] && b != [] {
      NotEmptied(hash, b);
    } else if a != [] && b == [] {
      NotEmptied(hash, a);
    } else if a != [] {
      SameLast(hash, inputs, a, b);
      SamePcrSameRecords(hash, inputs, a[..|a| - 1], b[..|b| - 1]);
      Resplit(a);
      Resplit(b);
    }
  }

  /** Two accepted logs with the same final PCR are byte-identical, provided the hash
      has no collision among the inputs of the two replays and neither replay comes
      back to the zero PCR. */
  lemma SamePcrSameLog(hash: Hash, a: seq<byte>, b: seq<byte>)
    requires Replay(hash, a).Replayed? && Replay(hash, b).Replayed?
    requires Replay(hash, a).pcr == Replay(hash, b).pcr
    requires CollisionFree(hash, Inputs(hash, Replay(hash, a).records) + Inputs(hash, Replay(hash, b).records))
    requires NeverBackToZero(hash, Replay(hash, a).records) && NeverBackToZero(hash, Replay(hash, b).records)
    ensures a == b
  {
    var Replayed(pcr, records) := Replay(hash, a);
    var Replayed(pcr', records') := Replay(hash, b);
    AcceptedExactly(hash, a, pcr, records);
    AcceptedExactly(hash, b, pcr', records');
    SamePcrSameRecords(hash, Inputs(hash, records) + Inputs(hash, records'), records, records');
  }

  // ---- Reading the file in pieces

  /** What one `read` does: give at most `size` bytes, be interrupted, or fail (an
      error, or the three seconds are over). */
  datatype ReadEvent = Chunk(size: nat) | Interrupted | Failed

  /** How much a read of `wanted` bytes returns; 0 only at the end of the file. */
  function Given(size: nat, wanted: nat, left: nat): nat {
    var n := if size < 1 then 1 else size;
    var n := if n > wanted then wanted else n;
    if n > left then left else n
  }

  class Input {
    const file: seq<byte>
    var bytes: nat
    var schedule: seq<ReadEvent>  // the reads to come; after these, every read is complete
    var error: Error

    constructor (file: seq<byte>, schedule: seq<ReadEvent>)
      ensures this.file == file && bytes == 0 && this.schedule == schedule
    {
      this.file, this.bytes, this.schedule, this.error := file, 0, schedule, SourceFailed;
    }

    ghost predicate Valid()
      reads this
    {
      bytes <= |file| && bytes <= MAX_BYTES
    }

    ghost predicate Reliable()
      reads this
    {
      Failed !in schedule
    }

    /** `take`: 1 with the bytes when the length was filled, 0 at a clean end of file,
        -1 otherwise. */
    method Fill(length: nat) returns (status: int, out: seq<byte>)
      requires Valid() && length > 0
      modifies this
      ensures Valid() && (old(Reliable()) ==> Reliable())
      ensures status == 1 ==>
                && Take(file, old(bytes), length).Got? && bytes == old(bytes) + length
                && out == file[old(bytes)..bytes]
      ensures status == 0 ==> Take(file, old(bytes), length).End? && error == Truncated
      ensures status == -1 && old(Reliable()) ==> Take(file, old(bytes), length) == Stop(error)
      ensures status in {1, 0, -1}
    {
      if length > MAX_BYTES - bytes {
        error := ByteLimit;
        return -1, [];
      }
      var buffer := new byte[length];
      ghost var start := bytes;
      var used := 0;
      while used < length
        invariant 0 <= used <= length
        invariant bytes == start + used && Valid()
        invariant old(Reliable()) ==> Reliable()
        invariant forall k :: 0 <= k < used ==> buffer[k] == file[start + k]
        decreases length - used, |schedule|
      {
        var event := if schedule == [] then Chunk(length) else schedule[0];
        schedule := if schedule == [] then [] else schedule[1..];
        if event.Interrupted? {
          continue;
        }
        if event.Failed? {
          error := SourceFailed;
          return -1, [];
        }
        var n := Given(event.size, length - used, |file| - bytes);
        if n == 0 {
          error := Truncated;
          return if used > 0 then -1 else 0, [];
        }
        forall k | used <= k < used + n {
          buffer[k] := file[bytes - used + k];
        }
        used, bytes := used + n, bytes + n;
      }
      return 1, buffer[..];
    }
  }

  /** `replay`, reading through an input that may return any number of bytes at a
      time. A reliable input gives exactly the answer of the whole file; an input that
      fails can only turn an answer into a refusal. */
  method RunReplay(hash: Hash, input: Input) returns (ok: bool, pcr: Digest, records: nat)
    requires input.bytes == 0
    modifies input
    ensures ok ==>
              && Replay(hash, input.file).Replayed?
              && pcr == Replay(hash, input.file).pcr && records == |Replay(hash, input.file).records|
    ensures !ok && old(input.Reliable()) ==> Replay(hash, input.file) == Rejected(input.error)
  {
    pcr, records := Zeros(32), 0;
    ghost var done: seq<Record> := [];
    while true
      invariant input.Valid() && (old(input.Reliable()) ==> input.Reliable())
      invariant records == |done|
      invariant Replay(hash, input.file) == ReplayFrom(hash, input.file, input.bytes, pcr, done)
      decreases |input.file| - input.bytes
    {
      ghost var at := input.bytes;
      var status, index := input.Fill(4);
      if status == 0 {
        break;
      }
      if status < 0 {
        return false, pcr, records;
      }
      if records >= MAX_RECORDS {
        input.error := RecordLimit;
        return false, pcr, records;
      }
      var good, record := RunRecord(hash, input, index, at);
      if !good {
        return false, pcr, records;
      }
      pcr := hash(pcr + record.digest);
      records := records + 1;
      done := done + [record];
    }
    if records == 0 {
      input.error := EmptyLog;
      return false, pcr, records;
    }
    return true, pcr, records;
  }

  /** One record after its first four bytes, with the same checks in the same order. */
  method RunRecord(hash: Hash, input: Input, index: seq<byte>, ghost at: nat) returns (good: bool, record: Record)
    requires input.Valid() && input.bytes == at + 4 && index == input.file[at..at + 4]
    modifies input
    ensures input.Valid() && (old(input.Reliable()) ==> input.Reliable())
    ensures good ==> ReadRecord(hash, input.file, at) == Parsed(record, input.bytes)
    ensures !good && old(input.Reliable()) ==> ReadRecord(hash, input.file, at) == Bad(input.error)
  {
    record := Record(Zeros(32), ImaNg, []);
    var status, header := input.Fill(36);
    if status != 1 {
      return false, record;
    }
    assert header[..32] == input.file[at + 4..at + 36] && header[32..36] == input.file[at + 36..at + 40];
    var pcrIndex := ReadLittle(index, 0, 4);
    assert index[0..4] == index;
    if pcrIndex != 10 {
      input.error := UnsupportedPcr;
      return false, record;
    }
    var nameLength := ReadLittle(header, 32, 4);
    if nameLength == 0 || nameLength > 32 {
      input.error := TemplateNameSize;
      return false, record;
    }
    var name;
    status, name := input.Fill(nameLength);
    if status != 1 {
      return false, record;
    }
    if name != ImaNg.Name() && name != ImaSig.Name() {
      input.error := UnsupportedTemplate;
      return false, record;
    }
    good, record := RunData(hash, input, header[..32], if name == ImaNg.Name() then ImaNg else ImaSig);
  }

  method RunData(hash: Hash, input: Input, digest: Digest, template: Template) returns (good: bool, record: Record)
    requires input.Valid()
    modifies input
    ensures input.Valid() && (old(input.Reliable()) ==> input.Reliable())
    ensures good ==> ReadData(hash, input.file, old(input.bytes), digest, template) == Parsed(record, input.bytes)
    ensures !good && old(input.Reliable()) ==>
              ReadData(hash, input.file, old(input.bytes), digest, template) == Bad(input.error)
  {
    record := Record(Zeros(32), ImaNg, []);
    var status, lengthBytes := input.Fill(4);
    if status != 1 {
      return false, record;
    }
    var length := ReadLittle(lengthBytes, 0, 4);
    assert lengthBytes[0..4] == lengthBytes;
    if length == 0 || length > MAX_DATA {
      input.error := TemplateDataSize;
      return false, record;
    }
    var data;
    status, data := input.Fill(length);
    if status != 1 {
      return false, record;
    }
    record := Record(digest, template, data);
    var verdict := Judge(hash, record);
    if verdict.Flawed? {
      input.error := verdict.error;
    }
    return verdict.Sound?, record;
  }

  method Judge(hash: Hash, r: Record) returns (v: Verdict)
    requires 1 <= |r.data| <= MAX_DATA
    ensures v == Flaw(hash, r)
  {
    var valid := CheckFields(r.data, r.template.Fields());
    if !valid {
      return Flawed(InvalidFields);
    }
    if !NonZero(r.digest) {
      return Flawed(Violation);
    }
    if hash(r.data) != r.digest {
      return Flawed(DigestMismatch);
    }
    return Sound;
  }
}
