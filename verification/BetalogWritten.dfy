/**
 The beta log written out: its lines as bytes, when it verifies, which appends it
 refuses, and the line an accepted one adds.
 */
module BetalogWritten {
  import opened Wrappers
  import opened MapSums
  import opened Betalog

  // ----- Lines are the bytes -----

  /** Every line with its newline, one after the other. */
  function Joined(lines: seq<string>): string {
    if lines == [] then "" else Joined(lines[..|lines| - 1]) + lines[|lines| - 1] + "\n"
  }

  lemma {:induction false} SplitJoins(s: string)
    ensures Joined(Split(s)) == s + "\n" && forall line :: line in Split(s) ==> '\n' !in line
  {
    var i := LastNewline(s);
    if i < 0 {
      assert Joined([s]) == Joined([]) + s + "\n";
      assert forall k :: 0 <= k < |s| ==> s[k] != '\n';
    } else {
      SplitJoins(s[..i]);
      var before, last := Split(s[..i]), s[i + 1..];
      assert (before + [last])[..|before|] == before;
      assert s == s[..i] + "\n" + last;
      assert forall k :: 0 <= k < |last| ==> last[k] == s[i + 1 + k];
    }
  }

  /** The lines of a terminated log are its bytes between newlines, none lost and none invented. */
  lemma LinesAreTheBytes(data: string)
    requires data == "" || data[|data| - 1] == '\n'
    ensures Joined(Lines(data)) == data && forall line :: line in Lines(data) ==> '\n' !in line
  {
    if data != "" {
      SplitJoins(data[..|data| - 1]);
    }
  }

  // ----- Parsing and verifying -----

  /** The line decodes to an entry: numbered from one, with a hash of 64 hex digits, a type and a UTC time. */
  predicate Readable(c: Codec, line: string) {
    var d := c.decode(line);
    && d.Some? && d.value.n >= 1 && d.value.typ != "" && c.stamp(d.value.at)
    && |d.value.prev| == 64
    && forall i :: 0 <= i < 64 ==> d.value.prev[i] in "0123456789abcdefABCDEF"
  }

  lemma ParsesExactly(c: Codec, line: string)
    ensures Parse(c, line) == if Readable(c, line) then c.decode(line) else None
  {
    var d := c.decode(line);
    if d.Some? {
      forall i | 0 <= i < |d.value.prev|
        ensures HexDigit(d.value.prev[i]) <==> d.value.prev[i] in "0123456789abcdefABCDEF"
      {
        HexDigits(d.value.prev[i]);
      }
    }
  }

  lemma HexDigits(ch: char)
    ensures HexDigit(ch) <==> ch in "0123456789abcdefABCDEF"
  {
    var all := "0123456789abcdefABCDEF";
    if '0' <= ch <= '9' {
      assert all[ch as int - '0' as int] == ch;
    } else if 'a' <= ch <= 'f' {
      assert all[10 + (ch as int - 'a' as int)] == ch;
    } else if 'A' <= ch <= 'F' {
      assert all[16 + (ch as int - 'A' as int)] == ch;
    }
  }

  function Field(e: Entry, k: string): string {
    if k in e.refs then e.refs[k] else ""
  }

  /** The line acknowledges an incident of a source. */
  predicate Acknowledges(c: Codec, line: string, source: string, id: string) {
    && Readable(c, line) && c.decode(line).value.typ == "incident_ack"
    && Field(c.decode(line).value, "source") == source && Field(c.decode(line).value, "id") == id
  }

  /** The hash a line must carry: that of the line before, or 64 zeros. */
  ghost predicate Chains(c: Codec, lines: seq<string>, i: nat, prev: string)
    requires i < |lines|
  {
    if i == 0 then |prev| == 64 && forall k :: 0 <= k < 64 ==> prev[k] == '0' else prev == c.hash(lines[i - 1])
  }

  lemma ZerosAreTheStart(s: string)
    ensures s == GENESIS <==> |s| == 64 && forall k :: 0 <= k < 64 ==> s[k] == '0'
  {
  }

  /** Two lines acknowledge the same source and incident, read as one text with a NUL between. */
  predicate AckedTwice(c: Codec, a: string, b: string) {
    && Readable(c, a) && Readable(c, b)
    && c.decode(a).value.typ == "incident_ack" && c.decode(b).value.typ == "incident_ack"
    && Field(c.decode(a).value, "source") + [0 as char] + Field(c.decode(a).value, "id")
       == Field(c.decode(b).value, "source") + [0 as char] + Field(c.decode(b).value, "id")
  }

  ghost predicate GoodLine(c: Codec, lines: seq<string>, i: nat)
    requires i < |lines|
  {
    && Readable(c, lines[i]) && c.decode(lines[i]).value.n == i + 1
    && Chains(c, lines, i, c.decode(lines[i]).value.prev)
    && forall j :: 0 <= j < i ==> !AckedTwice(c, lines[j], lines[i])
  }

  lemma AckedTwiceExactly(c: Codec, a: string, b: string)
    ensures SameAck(c, a, b) <==> AckedTwice(c, a, b)
  {
    ParsesExactly(c, a);
    ParsesExactly(c, b);
  }

  lemma GoodLineExactly(c: Codec, lines: seq<string>, i: nat)
    requires i < |lines|
    ensures LineOk(c, lines, i) <==> GoodLine(c, lines, i)
  {
    ParsesExactly(c, lines[i]);
    if Readable(c, lines[i]) {
      ZerosAreTheStart(c.decode(lines[i]).value.prev);
    }
    forall j | 0 <= j < i
      ensures SameAck(c, lines[j], lines[i]) <==> AckedTwice(c, lines[j], lines[i])
    {
      AckedTwiceExactly(c, lines[j], lines[i]);
    }
  }

  /**
   A log verifies exactly when it is empty, or ends in a newline and each of its lines is
   readable, numbered by its place, carries the hash of the line before, and repeats no
   acknowledgement.
   */
  lemma VerifiesExactly(c: Codec, data: string)
    ensures Verifies(c, data)
            <==> data == "" || (&& data[|data| - 1] == '\n'
                                && forall i :: 0 <= i < |Lines(data)| ==> GoodLine(c, Lines(data), i))
  {
    if data != "" {
      forall i | 0 <= i < |Lines(data)|
        ensures LineOk(c, Lines(data), i) <==> GoodLine(c, Lines(data), i)
      {
        GoodLineExactly(c, Lines(data), i);
      }
    }
  }

  // ----- Appending -----

  /** Some line acknowledges this very source and incident. */
  ghost predicate AckOnRecord(c: Codec, lines: seq<string>, refs: map<string, string>) {
    exists line :: line in lines && Acknowledges(c, line, GetOr(refs, "source", ""), GetOr(refs, "id", ""))
  }

  lemma RepeatsExactly(c: Codec, lines: seq<string>, refs: map<string, string>)
    requires c.decode("").None?
    ensures (exists i :: 0 <= i < |lines| && RepeatsAck(c, lines[i], refs)) <==> AckOnRecord(c, lines, refs)
  {
    forall i | 0 <= i < |lines|
      ensures RepeatsAck(c, lines[i], refs)
              <==> Acknowledges(c, lines[i], GetOr(refs, "source", ""), GetOr(refs, "id", ""))
    {
      ParsesExactly(c, lines[i]);
    }
    if AckOnRecord(c, lines, refs) {
      var line :| line in lines && Acknowledges(c, line, GetOr(refs, "source", ""), GetOr(refs, "id", ""));
      var i :| 0 <= i < |lines| && lines[i] == line;
      assert RepeatsAck(c, lines[i], refs);
    }
  }

  /**
   An append is refused for bytes without a final newline, then for a last line that is
   not readable, then for an acknowledgement of a source and incident that a line already
   acknowledges, and for nothing else: another incident, source or type is accepted.
   */
  lemma RefusesExactly(c: Codec, data: string, typ: string, refs: map<string, string>)
    requires c.decode("").None?
    ensures var r, lines := Refused(c, data, typ, refs), Lines(data);
      if data != "" && data[|data| - 1] != '\n' then r == Some(Unterminated)
      else if data != "" && !Readable(c, lines[|lines| - 1]) then r == Some(CorruptTail)
      else if typ == "incident_ack" && AckOnRecord(c, lines, refs) then r == Some(DuplicateAck)
      else r == None
  {
    if data != "" && Terminated(data) {
      LastLineIsLast(data);
      ParsesExactly(c, LastLine(data));
    }
    RepeatsExactly(c, Lines(data), refs);
  }

  /** An accepted append writes one entry: the next number, the last line's hash, and its own fields. */
  lemma AppendsExactly(c: Codec, data: string, typ: string, text: string, refs: map<string, string>, at: string)
    requires c.decode("").None? && Refused(c, data, typ, refs).None?
    ensures var e, lines := NewEntry(c, data, typ, text, refs, at), Lines(data);
      && e.at == at && e.typ == typ && e.text == text && e.refs == refs
      && (data == "" ==> e.n == 1 && |e.prev| == 64 && forall k :: 0 <= k < 64 ==> e.prev[k] == '0')
      && (data != "" ==>
            && Readable(c, lines[|lines| - 1])
            && e.n == c.decode(lines[|lines| - 1]).value.n + 1 && e.prev == c.hash(lines[|lines| - 1]))
  {
    RefusesExactly(c, data, typ, refs);
    if data == "" {
      ZerosAreTheStart(GENESIS);
    } else {
      LastLineIsLast(data);
      ParsesExactly(c, LastLine(data));
    }
  }
}
