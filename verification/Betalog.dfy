/**
 The hash-chained beta log: appends under a lock, and the verifier that re-walks the
 chain. Bytes are characters; JSON, UTF-8 cleaning and SHA-256 are parameters.
 */
module Betalog {
  import opened Wrappers
  import opened MapSums

  datatype Entry = Entry(n: int, prev: string, at: string, typ: string, text: string, refs: map<string, string>)

  /**
   The codec of a line: marshal and decode, the replacement of invalid UTF-8 that
   both apply to strings, the RFC 3339 UTC timestamp test, and the hash.
   */
  datatype Codec = Codec(marshal: Entry -> string, decode: string -> Option<Entry>, clean: string -> string,
                         stamp: string -> bool, hash: string -> string)

  function Zeros(n: nat): (z: string)
    ensures |z| == n && forall i :: 0 <= i < n ==> z[i] == '0'
  {
    if n == 0 then "" else Zeros(n - 1) + "0"
  }

  const GENESIS: string := Zeros(64)
  const ACK := "incident_ack"
  const NUL: char := 0 as char

  predicate HexDigit(ch: char) {
    '0' <= ch <= '9' || 'a' <= ch <= 'f' || 'A' <= ch <= 'F'
  }

  predicate Hex64(s: string) {
    |s| == 64 && forall i :: 0 <= i < |s| ==> HexDigit(s[i])
  }

  function Ref(e: Entry, k: string): string {
    GetOr(e.refs, k, "")
  }

  /** What a marshalled entry decodes to, as far as the log looks at it. */
  ghost predicate Reads(c: Codec, e: Entry, d: Entry) {
    && d.n == e.n && d.prev == c.clean(e.prev) && d.at == c.clean(e.at) && d.typ == c.clean(e.typ)
    && Ref(d, "source") == c.clean(Ref(e, "source")) && Ref(d, "id") == c.clean(Ref(e, "id"))
  }

  ghost predicate Laws(c: Codec) {
    && (forall e :: '\n' !in c.marshal(e))
    && (forall e :: c.decode(c.marshal(e)).Some? && Reads(c, e, c.decode(c.marshal(e)).value))
    && (forall l :: c.decode(l).Some? ==>
          var d := c.decode(l).value; c.clean(Ref(d, "source")) == Ref(d, "source") && c.clean(Ref(d, "id")) == Ref(d, "id"))
    && c.decode("").None?
    && (forall s :: c.clean(s) == "" <==> s == "")
    && (forall s :: c.clean(s) == ACK <==> s == ACK)
    && (forall s :: c.stamp(s) ==> c.clean(s) == s)
    && (forall s :: Hex64(s) ==> c.clean(s) == s)
    && (forall l :: Hex64(c.hash(l)))
  }

  /** The hash tells the lines of the two logs apart. */
  ghost predicate NoCollision(c: Codec, a: seq<string>, b: seq<string>) {
    forall i, j :: 0 <= i < |a| && 0 <= j < |b| && c.hash(a[i]) == c.hash(b[j]) ==> a[i] == b[j]
  }

  // ----- Lines -----

  function LastNewline(s: string): (i: int)
    ensures -1 <= i < |s|
    ensures i >= 0 ==> s[i] == '\n'
    ensures forall k :: i < k < |s| ==> s[k] != '\n'
  {
    if s == "" then -1
    else if s[|s| - 1] == '\n' then |s| - 1
    else LastNewline(s[..|s| - 1])
  }

  /** The pieces between newlines; at least one. */
  function Split(s: string): (lines: seq<string>)
    ensures |lines| >= 1
  {
    var i := LastNewline(s);
    if i < 0 then [s] else Split(s[..i]) + [s[i + 1..]]
  }

  predicate Terminated(data: string) {
    data != "" && data[|data| - 1] == '\n'
  }

  /** The lines of a terminated log; none of an empty one. */
  function Lines(data: string): seq<string> {
    if data == "" then [] else Split(data[..|data| - 1])
  }

  lemma SplitAppend(s: string, l: string)
    requires '\n' !in l
    ensures Split(s + "\n" + l) == Split(s) + [l]
  {
    var all := s + "\n" + l;
    var i := LastNewline(all);
    assert all[|s|] == '\n';
    forall k | |s| < k < |all|
      ensures all[k] != '\n'
    {
      assert all[k] == l[k - |s| - 1];
    }
    assert all[..i] == s && all[i + 1..] == l;
  }

  lemma LinesAppend(data: string, l: string)
    requires data == "" || Terminated(data)
    requires '\n' !in l
    ensures Terminated(data + l + "\n") && Lines(data + l + "\n") == Lines(data) + [l]
  {
    var all := data + l + "\n";
    if data == "" {
      assert all[..|all| - 1] == l;
      assert forall k :: 0 <= k < |l| ==> l[k] in l;
    } else {
      var s := data[..|data| - 1];
      assert data == s + "\n";
      assert all[..|all| - 1] == s + "\n" + l;
      SplitAppend(s, l);
    }
  }

  // ----- One line -----

  function Parse(c: Codec, line: string): Option<Entry> {
    var d := c.decode(line);
    if d.None? || d.value.n < 1 || !Hex64(d.value.prev) || d.value.typ == "" || !c.stamp(d.value.at) then None else d
  }

  /** The verifier's key of an acknowledgement. */
  function AckKey(e: Entry): string {
    Ref(e, "source") + [NUL] + Ref(e, "id")
  }

  function PrevHash(c: Codec, lines: seq<string>, i: nat): string
    requires i <= |lines|
  {
    if i == 0 then GENESIS else c.hash(lines[i - 1])
  }

  predicate IsAck(c: Codec, line: string) {
    Parse(c, line).Some? && Parse(c, line).value.typ == ACK
  }

  /** Both lines acknowledge the same incident. */
  predicate SameAck(c: Codec, a: string, b: string) {
    IsAck(c, a) && IsAck(c, b) && AckKey(Parse(c, a).value) == AckKey(Parse(c, b).value)
  }

  ghost predicate LineOk(c: Codec, lines: seq<string>, i: nat)
    requires i < |lines|
  {
    && Parse(c, lines[i]).Some?
    && Parse(c, lines[i]).value.n == i + 1
    && Parse(c, lines[i]).value.prev == PrevHash(c, lines, i)
    && forall j :: 0 <= j < i ==> !SameAck(c, lines[j], lines[i])
  }

  ghost predicate ChainOk(c: Codec, lines: seq<string>) {
    forall i :: 0 <= i < |lines| ==> LineOk(c, lines, i)
  }

  ghost predicate Verifies(c: Codec, data: string) {
    data == "" || (Terminated(data) && ChainOk(c, Lines(data)))
  }

  /** The acknowledged keys and the line that holds each. */
  ghost predicate Acked(c: Codec, acks: map<string, int>, lines: seq<string>, n: nat)
    requires n <= |lines|
  {
    forall key :: key in acks <==> exists j :: 0 <= j < n && IsAck(c, lines[j]) && AckKey(Parse(c, lines[j]).value) == key
  }

  /** Walks every line; the count of entries, or None at the first fault. */
  method VerifyChain(c: Codec, data: string) returns (count: Option<nat>)
    ensures count.Some? <==> Verifies(c, data)
    ensures count.Some? ==> count.value == |Lines(data)|
  {
    if data == "" {
      return Some(0);
    }
    if !Terminated(data) {
      return None;
    }
    var lines := Split(data[..|data| - 1]);
    var prevHash, acks: map<string, int>, i := GENESIS, map[], 0;
    while i < |lines|
      invariant 0 <= i <= |lines|
      invariant forall k :: 0 <= k < i ==> LineOk(c, lines, k)
      invariant prevHash == PrevHash(c, lines, i)
      invariant Acked(c, acks, lines, i)
    {
      var e := Parse(c, lines[i]);
      if e.None? || e.value.n != i + 1 || e.value.prev != prevHash {
        assert !LineOk(c, lines, i);
        return None;
      }
      if e.value.typ == ACK {
        var key := AckKey(e.value);
        if key in acks {
          assert !LineOk(c, lines, i) by {
            var j :| 0 <= j < i && IsAck(c, lines[j]) && AckKey(Parse(c, lines[j]).value) == key;
            assert SameAck(c, lines[j], lines[i]);
          }
          return None;
        }
        AckedNext(c, acks, lines, i);
        acks := acks[key := i + 1];
      }
      prevHash := c.hash(lines[i]);
      i := i + 1;
    }
    count := Some(|lines|);
  }

  lemma AckedNext(c: Codec, acks: map<string, int>, lines: seq<string>, i: nat)
    requires i < |lines| && IsAck(c, lines[i]) && Acked(c, acks, lines, i)
    ensures Acked(c, acks[AckKey(Parse(c, lines[i]).value) := i + 1], lines, i + 1)
  {
  }

  // ----- Appending -----

  datatype Refusal = Unterminated | CorruptTail | DuplicateAck

  /** The append's own duplicate test: raw references, component by component; empty lines are skipped. */
  predicate RepeatsAck(c: Codec, line: string, refs: map<string, string>) {
    && line != "" && IsAck(c, line)
    && Ref(Parse(c, line).value, "source") == GetOr(refs, "source", "")
    && Ref(Parse(c, line).value, "id") == GetOr(refs, "id", "")
  }

  function LastLine(data: string): string
    requires Terminated(data)
  {
    var trimmed := data[..|data| - 1];
    trimmed[LastNewline(trimmed) + 1..]
  }

  /** Why an append is refused, if it is. */
  function Refused(c: Codec, data: string, typ: string, refs: map<string, string>): Option<Refusal> {
    if data != "" && !Terminated(data) then Some(Unterminated)
    else if data != "" && Parse(c, LastLine(data)).None? then Some(CorruptTail)
    else if typ == ACK && exists i :: 0 <= i < |Lines(data)| && RepeatsAck(c, Lines(data)[i], refs)
    then Some(DuplicateAck)
    else None
  }

  function NewEntry(c: Codec, data: string, typ: string, text: string, refs: map<string, string>, at: string): Entry
    requires Refused(c, data, typ, refs).None?
  {
    if data == "" then Entry(1, GENESIS, at, typ, text, refs)
    else Entry(Parse(c, LastLine(data)).value.n + 1, c.hash(LastLine(data)), at, typ, text, refs)
  }

  class Log {
    const c: Codec
    var data: string

    constructor (c: Codec, data: string)
      ensures this.c == c && this.data == data
    {
      this.c, this.data := c, data;
    }

    /** The scan for an acknowledgement with the same raw references. */
    method Repeats(lines: seq<string>, refs: map<string, string>) returns (found: bool)
      ensures found <==> exists i :: 0 <= i < |lines| && RepeatsAck(c, lines[i], refs)
    {
      var i := 0;
      while i < |lines|
        invariant 0 <= i <= |lines|
        invariant forall k :: 0 <= k < i ==> !RepeatsAck(c, lines[k], refs)
      {
        if RepeatsAck(c, lines[i], refs) {
          return true;
        }
        i := i + 1;
      }
      found := false;
    }

    /** The checks of an append, and the line it would write. */
    method Compose(typ: string, text: string, refs: map<string, string>, at: string)
      returns (r: Result<string, Refusal>)
      ensures r.Err? <==> Refused(c, data, typ, refs).Some?
      ensures r.Err? ==> Refused(c, data, typ, refs) == Some(r.error)
      ensures r.Ok? ==> r.value == c.marshal(NewEntry(c, data, typ, text, refs, at))
    {
      var n, prev := 1, GENESIS;
      if data != "" {
        if !Terminated(data) {
          return Err(Unterminated);
        }
        var last := LastLine(data);
        var tail := Parse(c, last);
        if tail.None? {
          return Err(CorruptTail);
        }
        n, prev := tail.value.n + 1, c.hash(last);
      }
      if typ == ACK {
        var repeated := Repeats(Lines(data), refs);
        if repeated {
          return Err(DuplicateAck);
        }
      }
      r := Ok(c.marshal(Entry(n, prev, at, typ, text, refs)));
    }

    /** Under the lock: checks the tail, refuses a repeated acknowledgement, writes one line. */
    method Append(typ: string, text: string, refs: map<string, string>, at: string)
      returns (r: Result<string, Refusal>)
      modifies this`data
      ensures r.Err? <==> Refused(c, old(data), typ, refs).Some?
      ensures r.Err? ==> data == old(data) && Refused(c, old(data), typ, refs) == Some(r.error)
      ensures r.Ok? ==>
        var line := c.marshal(NewEntry(c, old(data), typ, text, refs, at));
        data == old(data) + line + "\n" && r.value == c.hash(line)
    {
      var line := Compose(typ, text, refs, at);
      if line.Err? {
        return line;
      }
      data := data + line.value + "\n";
      r := Ok(c.hash(line.value));
    }
  }

  // ----- Appending keeps the log verifying -----

  lemma LastLineIsLast(data: string)
    requires Terminated(data)
    ensures LastLine(data) == Lines(data)[|Lines(data)| - 1]
  {
  }

  lemma GenesisIsHex()
    ensures Hex64(GENESIS)
  {
  }

  /** A well-formed entry, as the verifier will read it. */
  lemma MarshalParses(c: Codec, e: Entry)
    requires Laws(c) && e.n >= 1 && Hex64(e.prev) && e.typ != "" && c.stamp(e.at)
    ensures var line := c.marshal(e);
      && Parse(c, line).Some? && Parse(c, line).value.n == e.n && Parse(c, line).value.prev == e.prev
      && (IsAck(c, line) <==> e.typ == ACK)
      && AckKey(Parse(c, line).value) == CleanKey(c, e.refs)
  {
    assert Reads(c, e, c.decode(c.marshal(e)).value);
  }

  /** The key an acknowledgement with these references is stored under. */
  function CleanKey(c: Codec, refs: map<string, string>): string {
    c.clean(GetOr(refs, "source", "")) + [NUL] + c.clean(GetOr(refs, "id", ""))
  }

  lemma HashIsHex(c: Codec, line: string)
    requires Laws(c)
    ensures Hex64(c.hash(line))
  {
  }

  /** The tail of a log that accepts appends parses, so its number is positive. */
  lemma TailIsNumbered(c: Codec, data: string, typ: string, refs: map<string, string>)
    requires Refused(c, data, typ, refs).None? && data != ""
    ensures Terminated(data) && Parse(c, LastLine(data)).Some? && Parse(c, LastLine(data)).value.n >= 1
  {
    ParsedIsNumbered(c, LastLine(data));
  }

  lemma ParsedIsNumbered(c: Codec, line: string)
    requires Parse(c, line).Some?
    ensures Parse(c, line).value.n >= 1
  {
  }

  lemma NewEntryIsWellFormed(c: Codec, data: string, typ: string, text: string, refs: map<string, string>, at: string)
    requires Refused(c, data, typ, refs).None? && (data != "" ==> Hex64(c.hash(LastLine(data))))
    ensures var e := NewEntry(c, data, typ, text, refs, at);
      e.n >= 1 && Hex64(e.prev) && e.typ == typ && e.at == at && e.refs == refs
  {
    if data == "" {
      GenesisIsHex();
    } else {
      TailIsNumbered(c, data, typ, refs);
    }
  }

  /** The acknowledgement key the new line will have is already taken. */
  ghost predicate KeyTaken(c: Codec, lines: seq<string>, refs: map<string, string>) {
    exists j :: 0 <= j < |lines| && IsAck(c, lines[j]) && AckKey(Parse(c, lines[j]).value) == CleanKey(c, refs)
  }

  lemma ChainExtends(c: Codec, lines: seq<string>, line: string)
    requires ChainOk(c, lines)
    ensures ChainOk(c, lines + [line]) <==> LineOk(c, lines + [line], |lines|)
  {
    var all := lines + [line];
    forall i | 0 <= i < |lines|
      ensures LineOk(c, all, i)
    {
      assert LineOk(c, lines, i);
      assert all[i] == lines[i];
      assert forall j :: 0 <= j < i ==> all[j] == lines[j];
      assert PrevHash(c, all, i) == PrevHash(c, lines, i);
    }
  }

  /**
   Appending to a log that verifies gives one more line, with the old bytes as a
   prefix; it verifies exactly when the line is no acknowledgement or its cleaned key
   is not yet taken. The append's own test compares raw references, so it does not
   always see a taken key.
   */
  lemma AppendVerifiesIff(c: Codec, data: string, typ: string, text: string, refs: map<string, string>, at: string)
    requires Laws(c) && Verifies(c, data) && typ != "" && c.stamp(at)
    requires Refused(c, data, typ, refs).None?
    ensures var data' := data + c.marshal(NewEntry(c, data, typ, text, refs, at)) + "\n";
      && data <= data' && |Lines(data')| == |Lines(data)| + 1
      && (Verifies(c, data') <==> (typ == ACK ==> !KeyTaken(c, Lines(data), refs)))
  {
    var lines := Lines(data);
    var e := NewEntry(c, data, typ, text, refs, at);
    var line := c.marshal(e);
    if data != "" {
      HashIsHex(c, LastLine(data));
    }
    NewEntryIsWellFormed(c, data, typ, text, refs, at);
    MarshalParses(c, e);
    NewEntryContinues(c, data, typ, text, refs, at);
    LinesAppend(data, line);
    ChainExtends(c, lines, line);
    NewLineOk(c, lines, e);
  }

  lemma NewEntryContinues(c: Codec, data: string, typ: string, text: string, refs: map<string, string>, at: string)
    requires Verifies(c, data) && Refused(c, data, typ, refs).None?
    ensures var e := NewEntry(c, data, typ, text, refs, at);
      e.n == |Lines(data)| + 1 && e.prev == PrevHash(c, Lines(data), |Lines(data)|)
  {
    if data != "" {
      LastLineIsLast(data);
      assert LineOk(c, Lines(data), |Lines(data)| - 1);
    }
  }

  lemma NewLineOk(c: Codec, lines: seq<string>, e: Entry)
    requires e.n == |lines| + 1 && e.prev == PrevHash(c, lines, |lines|)
    requires var line := c.marshal(e);
      && Parse(c, line).Some? && Parse(c, line).value.n == e.n && Parse(c, line).value.prev == e.prev
      && (IsAck(c, line) <==> e.typ == ACK) && AckKey(Parse(c, line).value) == CleanKey(c, e.refs)
    ensures LineOk(c, lines + [c.marshal(e)], |lines|) <==> (e.typ == ACK ==> !KeyTaken(c, lines, e.refs))
  {
    var line := c.marshal(e);
    var all := lines + [line];
    assert all[|lines|] == line;
    assert forall j :: 0 <= j < |lines| ==> all[j] == lines[j];
  }

  /** A verifying log is only refused as a duplicate acknowledgement. */
  lemma VerifyingLogAccepts(c: Codec, data: string, typ: string, refs: map<string, string>)
    requires Verifies(c, data)
    ensures Refused(c, data, typ, refs).None? || (Refused(c, data, typ, refs) == Some(DuplicateAck) && typ == ACK)
  {
    if data != "" {
      LastLineIsLast(data);
      assert LineOk(c, Lines(data), |Lines(data)| - 1);
    }
  }

  lemma OneNul(a: string, b: string, x: string, y: string)
    requires a + [NUL] + b == x + [NUL] + y && NUL !in a && NUL !in b
    ensures a == x && b == y
  {
    var s, t := a + [NUL] + b, x + [NUL] + y;
    assert t[|x|] == NUL;
    forall k | 0 <= k < |s| && k != |a|
      ensures s[k] != NUL
    {
      assert s[k] == if k < |a| then a[k] else b[k - |a| - 1];
      assert s[k] in a || s[k] in b;
    }
    assert |x| == |a|;
    assert s[..|a|] == a && t[..|x|] == x;
    assert s[|a| + 1..] == b && t[|x| + 1..] == y;
  }

  /** References the marshaller leaves alone, without a NUL. */
  predicate Plain(c: Codec, refs: map<string, string>) {
    forall k :: k in ["source", "id"] ==> c.clean(GetOr(refs, k, "")) == GetOr(refs, k, "") && NUL !in GetOr(refs, k, "")
  }

  lemma PlainKeyIsSeen(c: Codec, lines: seq<string>, refs: map<string, string>)
    requires Plain(c, refs) && KeyTaken(c, lines, refs) && Parse(c, "").None?
    ensures exists i :: 0 <= i < |lines| && RepeatsAck(c, lines[i], refs)
  {
    var j :| 0 <= j < |lines| && IsAck(c, lines[j]) && AckKey(Parse(c, lines[j]).value) == CleanKey(c, refs);
    var e := Parse(c, lines[j]).value;
    assert "source" in ["source", "id"] && "id" in ["source", "id"];
    OneNul(GetOr(refs, "source", ""), GetOr(refs, "id", ""), Ref(e, "source"), Ref(e, "id"));
    assert RepeatsAck(c, lines[j], refs);
  }

  /** With valid, NUL-free references the append's test sees every taken key: the log goes on verifying. */
  lemma CleanAppendVerifies(c: Codec, data: string, typ: string, text: string, refs: map<string, string>, at: string)
    requires Laws(c) && Verifies(c, data) && typ != "" && c.stamp(at)
    requires Refused(c, data, typ, refs).None? && Plain(c, refs)
    ensures Verifies(c, data + c.marshal(NewEntry(c, data, typ, text, refs, at)) + "\n")
  {
    AppendVerifiesIff(c, data, typ, text, refs, at);
    if typ == ACK && KeyTaken(c, Lines(data), refs) {
      PlainKeyIsSeen(c, Lines(data), refs);
      assert false;
    }
  }

  /**
   A reference that is not valid UTF-8 can be acknowledged twice: neither append sees
   the other, and the log no longer verifies.
   */
  lemma UncleanAckBreaksTheLog(c: Codec, data: string, refs: map<string, string>, at: string)
    requires Laws(c) && Verifies(c, data) && c.stamp(at)
    requires c.clean(GetOr(refs, "source", "")) != GetOr(refs, "source", "")
    ensures Refused(c, data, ACK, refs).None?
    ensures var data1 := data + c.marshal(NewEntry(c, data, ACK, "", refs, at)) + "\n";
      Verifies(c, data1) ==>
        && Refused(c, data1, ACK, refs).None?
        && !Verifies(c, data1 + c.marshal(NewEntry(c, data1, ACK, "", refs, at)) + "\n")
  {
    UncleanIsNeverSeen(c, data, refs);
    var line := c.marshal(NewEntry(c, data, ACK, "", refs, at));
    var data1 := data + line + "\n";
    if Verifies(c, data1) {
      UncleanIsNeverSeen(c, data1, refs);
      if data != "" {
        HashIsHex(c, LastLine(data));
      }
      NewEntryIsWellFormed(c, data, ACK, "", refs, at);
      MarshalParses(c, NewEntry(c, data, ACK, "", refs, at));
      LinesAppend(data, line);
      assert Lines(data1)[|Lines(data)|] == line;
      assert KeyTaken(c, Lines(data1), refs);
      AppendVerifiesIff(c, data1, ACK, "", refs, at);
    }
  }

  lemma UncleanIsNeverSeen(c: Codec, data: string, refs: map<string, string>)
    requires Laws(c) && Verifies(c, data) && c.clean(GetOr(refs, "source", "")) != GetOr(refs, "source", "")
    ensures Refused(c, data, ACK, refs).None?
  {
    VerifyingLogAccepts(c, data, ACK, refs);
    forall i | 0 <= i < |Lines(data)|
      ensures !RepeatsAck(c, Lines(data)[i], refs)
    {
      if IsAck(c, Lines(data)[i]) {
        assert c.clean(Ref(Parse(c, Lines(data)[i]).value, "source")) == Ref(Parse(c, Lines(data)[i]).value, "source");
      }
    }
  }

  // ----- The chain fixes the past -----

  /** Without a hash collision between them, two verifying logs that agree on a line agree on every line before it. */
  lemma {:induction false} LineFixesThePast(c: Codec, a: seq<string>, b: seq<string>, k: nat)
    requires NoCollision(c, a, b) && ChainOk(c, a) && ChainOk(c, b)
    requires k < |a| && k < |b| && a[k] == b[k]
    ensures a[..k + 1] == b[..k + 1]
  {
    assert LineOk(c, a, k) && LineOk(c, b, k);
    if k > 0 {
      assert c.hash(a[k - 1]) == c.hash(b[k - 1]);
      LineFixesThePast(c, a, b, k - 1);
      assert a[..k + 1] == a[..k] + [a[k]] && b[..k + 1] == b[..k] + [b[k]];
    }
  }
}
