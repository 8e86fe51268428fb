/**
 Reading a log back (`LogMessage` and `LogParser`).

 The reader walks a stream line by line, finds the structured payload a
 line carries after the logger's `-- :` separator, keeps payloads that
 have a `sequence` field, and hands them out one at a time as decoded
 messages. `LogMessage` offers the tolerant comparisons the tests and the
 pretty printer use.

 JSON decoding is a parameter (`Decoder`): it returns `None` where
 `JSON.parse` raises.
 */
module LogParser {
  import opened Wrappers
  import opened Values
  import opened Constants

  // ---------------------------------------------------------------------
  // Decoded messages
  // ---------------------------------------------------------------------

  /** One decoded entry. Every field is whatever the payload held under
      that name, nil when it held nothing. */
  datatype LogMessage = LogMessage(line: Value, sequence: Value, depth: Value, cmd: Value,
                                   kind: Value, msg: Value, key: Value)

  /** `LogMessage.new`: every field nil. */
  function Blank(): LogMessage {
    LogMessage(Nil, Nil, Nil, Nil, Nil, Nil, Nil)
  }

  /** The payload's value under a string key (`input['name']`). */
  function Field(payload: Value, name: string): Value
    requires payload.Hash?
  {
    Lookup(payload.entries, Str(name))
  }

  /** `populate(line, msg)`: copies the payload's fields into the message. */
  function Populate(line: string, payload: Value): (m: LogMessage)
    requires payload.Hash?
    ensures m.line == Str(line)
    ensures m.sequence == Field(payload, "sequence") && m.depth == Field(payload, "depth")
    ensures m.cmd == Field(payload, "cmd") && m.kind == Field(payload, "kind")
    ensures m.msg == Field(payload, "msg") && m.key == Field(payload, "key")
  {
    LogMessage(Str(line), Field(payload, "sequence"), Field(payload, "depth"),
               Field(payload, "cmd"), Field(payload, "kind"), Field(payload, "msg"),
               Field(payload, "key"))
  }

  /** `root?`: the depth is 0. */
  predicate IsRoot(m: LogMessage) {
    Equal(m.depth, Int(0))
  }

  /** `key?(key)`: plain equality with the stored slot key. */
  predicate HasSlotKey(m: LogMessage, key: Value) {
    Equal(m.key, key)
  }

  /** `kind?(kind)`: compares the string form of the argument, so a symbol
      and the string of the same name both match. */
  predicate IsKind(m: LogMessage, kind: Value) {
    Equal(m.kind, Str(Show(kind)))
  }

  /** `command?(cmd)`: a class is compared by its name, anything else as is. */
  predicate IsCommand(m: LogMessage, cmd: Value) {
    Equal(m.cmd, if cmd.Cls? then Str(cmd.className) else cmd)
  }

  /** A symbol key as the stored message spells it after a JSON round trip. */
  function StringKey(k: Value): Value {
    if k.Sym? then Str(k.name) else k
  }

  /** One entry of the argument is in the stored message: its key, as a
      string if it is a symbol, is present there with an equal value. */
  predicate EntryStored(stored: seq<Entry>, e: Entry) {
    HasKey(stored, StringKey(e.key)) && Equal(Lookup(stored, StringKey(e.key)), e.val)
  }

  /** The loop of `match_message?` over a hash argument, from entry `i` on. */
  predicate MatchEntries(stored: Value, es: seq<Entry>, i: nat)
    requires stored.Hash? && i <= |es|
    decreases |es| - i
  {
    if i == |es| then true
    else EntryStored(stored.entries, es[i]) && MatchEntries(stored, es, i + 1)
  }

  /** What `match_message?` needs: for a non-empty hash argument the stored
      message must be a hash (the source calls `key?` on it). */
  predicate CanMatch(m: LogMessage, msg: Value) {
    msg.Hash? && |msg.entries| > 0 ==> m.msg.Hash?
  }

  /** `match_message?(msg)`: equality for anything but a hash; for a hash,
      every one of its entries must be present, and equal, in the stored
      message, which may hold more. A non-empty hash argument against a
      stored message that is not a hash raises: `key?` is called on it. */
  function MatchesMessage(m: LogMessage, msg: Value): (r: Result<bool, string>)
    ensures r.Failure? <==> !CanMatch(m, msg)
    ensures r.Success? && !msg.Hash? ==> (r.value <==> Equal(m.msg, msg))
    ensures msg.Hash? && |msg.entries| == 0 ==> r == Success(true)
  {
    if !msg.Hash? then Success(Equal(m.msg, msg))
    else if |msg.entries| == 0 then Success(true)
    else if !m.msg.Hash? then Failure("NoMethodError: undefined method `key?'")
    else Success(MatchEntries(m.msg, msg.entries, 0))
  }

  /** A hash argument matches exactly when each of its entries is stored
      under the string form of its key with an equal value. */
  lemma {:induction false} MatchEntriesIsSubset(stored: Value, es: seq<Entry>, i: nat)
    requires stored.Hash? && i <= |es|
    ensures MatchEntries(stored, es, i) <==>
      forall n :: i <= n < |es| ==> EntryStored(stored.entries, es[n])
    decreases |es| - i
  {
    if i < |es| {
      MatchEntriesIsSubset(stored, es, i + 1);
    }
  }

  /** Subset matching: `match_message?` with a hash holds iff every entry of
      the argument (keys stringified) is in the stored message; the stored
      message may carry extra keys. */
  lemma MatchesMessageHash(m: LogMessage, msg: Value)
    requires msg.Hash? && m.msg.Hash?
    ensures MatchesMessage(m, msg).Success?
    ensures MatchesMessage(m, msg).value <==>
      forall n :: 0 <= n < |msg.entries| ==> EntryStored(m.msg.entries, msg.entries[n])
  {
    MatchEntriesIsSubset(m.msg, msg.entries, 0);
  }

  /** The symbol and the string spelling of a kind are interchangeable. */
  lemma KindSymbolOrString(m: LogMessage, name: string)
    ensures IsKind(m, Sym(name)) <==> IsKind(m, Str(name))
    ensures IsKind(m, Sym(name)) <==> m.kind == Str(name)
  {
  }


  // ---------------------------------------------------------------------
  // Finding the payload on a line: /--\s+:\s+({.*})/
  // ---------------------------------------------------------------------

  /** `\s`: space, tab, newline, vertical tab, form feed, carriage return. */
  predicate IsSpace(c: char) {
    c == ' ' || c == '\t' || c == '\n' || c == '\U{B}' || c == '\U{C}' || c == '\r'
  }

  /** End of the run of whitespace starting at `i`. */
  function SkipSpaces(s: string, i: nat): (j: nat)
    requires i <= |s|
    ensures i <= j <= |s|
    ensures forall k :: i <= k < j ==> IsSpace(s[k])
    ensures j == |s| || !IsSpace(s[j])
    decreases |s| - i
  {
    if i < |s| && IsSpace(s[i]) then SkipSpaces(s, i + 1) else i
  }

  /** End of what `.` can match from `i`: the next newline, or the end. */
  function LineEnd(s: string, i: nat): (j: nat)
    requires i <= |s|
    ensures i <= j <= |s|
    ensures forall k :: i <= k < j ==> s[k] != '\n'
    ensures j == |s| || s[j] == '\n'
    decreases |s| - i
  {
    if i < |s| && s[i] != '\n' then LineEnd(s, i + 1) else i
  }

  /** Position of the last `}` in `s[lo..hi]`. */
  function LastBrace(s: string, lo: nat, hi: nat): (r: Option<nat>)
    requires lo <= hi <= |s|
    ensures r.Some? ==> lo <= r.value < hi && s[r.value] == '}'
    ensures r.Some? ==> forall k :: r.value < k < hi ==> s[k] != '}'
    ensures r.None? ==> forall k :: lo <= k < hi ==> s[k] != '}'
    decreases hi - lo
  {
    if hi == lo then None
    else if s[hi - 1] == '}' then Some(hi - 1)
    else LastBrace(s, lo, hi - 1)
  }

  /** Where the capture group lies in the text: `s[start..end]`. */
  datatype Span = Span(start: nat, end: nat)

  /** The capture of a match of the pattern starting at `p`, if the pattern
      matches there. Each `\s+` can only end where its whitespace run ends
      (backing off leaves a space where `:` or `{` must be), and the greedy
      `.*}` reaches the last `}` before the next newline. */
  function CaptureAt(s: string, p: nat): (r: Option<Span>)
    requires p <= |s|
    ensures r.Some? ==> p + 4 < r.value.start && r.value.start + 2 <= r.value.end <= |s|
  {
    if p + 2 > |s| || s[p] != '-' || s[p + 1] != '-' then None
    else
      var i := SkipSpaces(s, p + 2);
      if i == p + 2 || i == |s| || s[i] != ':' then None
      else
        var j := SkipSpaces(s, i + 1);
        if j == i + 1 || j == |s| || s[j] != '{' then None
        else
          match LastBrace(s, j + 1, LineEnd(s, j + 1))
          case None => None
          case Some(e) => Some(Span(j, e + 1))
  }

  /** A capture is a brace block without a newline, preceded by `--`, and
      no `}` follows it before the end of the line. */
  lemma CaptureShape(s: string, p: nat)
    requires p <= |s| && CaptureAt(s, p).Some?
    ensures var c := CaptureAt(s, p).value;
      && s[p] == '-' && s[p + 1] == '-'
      && s[c.start] == '{' && s[c.end - 1] == '}'
      && (forall k :: c.start <= k < c.end ==> s[k] != '\n')
      && (forall k :: c.end <= k < LineEnd(s, c.start + 1) ==> s[k] != '}')
  {
  }

  /** The leftmost position at or after `p` where the pattern matches. */
  function FirstMatch(s: string, p: nat): (r: Option<nat>)
    requires p <= |s|
    ensures r.None? ==> forall q :: p <= q <= |s| ==> CaptureAt(s, q).None?
    ensures r.Some? ==> p <= r.value <= |s| && CaptureAt(s, r.value).Some?
    ensures r.Some? ==> forall q :: p <= q < r.value ==> CaptureAt(s, q).None?
    decreases |s| - p
  {
    if CaptureAt(s, p).Some? then Some(p)
    else if p == |s| then None
    else FirstMatch(s, p + 1)
  }

  /** `line.scan(/--\s+:\s+({.*})/)`: the capture of the first match. */
  function Scan(line: string): (r: Option<string>)
    ensures r.Some? ==> 2 <= |r.value| && r.value[0] == '{' && r.value[|r.value| - 1] == '}'
    ensures r.Some? ==> forall k :: 0 <= k < |r.value| ==> r.value[k] != '\n'
    ensures r.None? <==> forall q :: 0 <= q <= |line| ==> CaptureAt(line, q).None?
  {
    match FirstMatch(line, 0)
    case None => None
    case Some(q) =>
      var sp := CaptureAt(line, q).value;
      CaptureShape(line, q);
      Some(line[sp.start..sp.end])
  }

  /** No `--` inside `s`. */
  predicate NoDoubleDash(s: string) {
    forall i :: 0 <= i < |s| - 1 ==> !(s[i] == '-' && s[i + 1] == '-')
  }

  /** `LineEnd` stops at the first newline or the end. */
  lemma LineEndAt(s: string, i: nat, e: nat)
    requires i <= e <= |s|
    requires forall k :: i <= k < e ==> s[k] != '\n'
    requires e == |s| || s[e] == '\n'
    ensures LineEnd(s, i) == e
    decreases e - i
  {
    if i < e {
      LineEndAt(s, i + 1, e);
    }
  }

  /** Before the separator a header without `--` matches nowhere. */
  lemma HeaderDoesNotMatch(s: string, h: nat)
    requires h + 2 <= |s| && s[h] == '-' && s[h + 1] == '-'
    requires NoDoubleDash(s[..h])
    ensures forall q :: 0 <= q < h ==> CaptureAt(s, q).None?
  {
    forall q | 0 <= q < h
      ensures CaptureAt(s, q).None?
    {
      if q < h - 1 {
        assert s[q] == s[..h][q] && s[q + 1] == s[..h][q + 1];
      } else {
        assert s[q + 2] == '-';
      }
    }
  }

  /** At the logger's `-- : ` separator the pattern captures the brace
      block that runs to the end of the line. */
  lemma SeparatorCaptures(s: string, h: nat, end: nat)
    requires h + 7 <= end <= |s|
    requires s[h] == '-' && s[h + 1] == '-' && s[h + 2] == ' ' && s[h + 3] == ':' && s[h + 4] == ' '
    requires s[h + 5] == '{' && s[end - 1] == '}'
    requires forall k :: h + 5 <= k < end ==> s[k] != '\n'
    requires end == |s| || s[end] == '\n'
    ensures CaptureAt(s, h) == Some(Span(h + 5, end))
  {
    assert SkipSpaces(s, h + 2) == h + 3 by {
      assert s[h + 3] == ':';
    }
    assert SkipSpaces(s, h + 4) == h + 5 by {
      assert s[h + 5] == '{';
    }
    LineEndAt(s, h + 6, end);
  }

  /** A line the Ruby logger writes (`<header>-- : <payload>`, with or
      without its newline) gives back exactly the payload, provided the
      header holds no `--` and the payload is one brace block without a
      newline. */
  lemma LoggerLineRoundTrip(header: string, payload: string, nl: string)
    requires NoDoubleDash(header)
    requires 2 <= |payload| && payload[0] == '{' && payload[|payload| - 1] == '}'
    requires forall k :: 0 <= k < |payload| ==> payload[k] != '\n'
    requires nl == "" || nl == "\n"
    ensures Scan(header + "-- : " + payload + nl) == Some(payload)
  {
    var s := header + "-- : " + payload + nl;
    var h := |header|;
    var end := h + 5 + |payload|;
    assert s[..h] == header;
    assert s[h] == '-' && s[h + 1] == '-' && s[h + 2] == ' ' && s[h + 3] == ':' && s[h + 4] == ' ';
    assert s[h + 5..end] == payload;
    HeaderDoesNotMatch(s, h);
    SeparatorCaptures(s, h, end);
    assert FirstMatch(s, 0) == Some(h);
  }

  /** A line as `readline` returns it: no newline except, possibly, the last
      character. */
  predicate SingleLine(s: string) {
    forall k :: 0 <= k < |s| - 1 ==> s[k] != '\n'
  }

  /** On a single line nothing matches after the end of a match, because the
      greedy `.*}` has already taken the line's last `}`. So `scan` yields at
      most once per line and reading only the first capture loses nothing. */
  lemma NoSecondMatch(s: string, p: nat, q: nat)
    requires SingleLine(s) && p <= |s|
    requires CaptureAt(s, p).Some?
    requires CaptureAt(s, p).value.end <= q <= |s|
    ensures CaptureAt(s, q).None?
  {
    var a := CaptureAt(s, p).value;
    CaptureShape(s, p);
    if CaptureAt(s, q).Some? {
      var b := CaptureAt(s, q).value;
      CaptureShape(s, q);
      var l := LineEnd(s, a.start + 1);
      assert b.end - 1 < l by {
        if l < |s| {
          assert s[l] == '\n';
        }
      }
      assert false;
    }
  }

  // ---------------------------------------------------------------------
  // LogParser: reading messages off a stream of lines
  // ---------------------------------------------------------------------

  /** `JSON.parse`: the decoded value, or `None` where it raises. */
  type Decoder = string -> Option<Value>

  /** What one line holds for the reader. */
  datatype Carrying =
    | Noise                          // no payload, or a payload without `sequence`
    | Payload(entries: seq<Entry>)   // a decoded hash with a `sequence` key
    | Malformed                      // the payload does not decode to a hash: the read raises

  /** The body of `next_line`'s loop plus `next`'s `key?('sequence')` test
      for one line. A payload that decodes to something other than a hash
      raises too (it has no `key?`). */
  function Classify(line: string, decode: Decoder): (c: Carrying)
    ensures c.Payload? ==> HasKey(c.entries, Str("sequence"))
    ensures Scan(line).None? ==> c == Noise
  {
    ClassifyCapture(Scan(line), decode)
  }

  /** What a line holds, given what the pattern captured on it. */
  function ClassifyCapture(item: Option<string>, decode: Decoder): (c: Carrying)
    ensures c.Payload? ==> HasKey(c.entries, Str("sequence"))
  {
    match item
    case None => Noise
    case Some(text) =>
      match decode(text)
      case None => Malformed
      case Some(v) =>
        if !v.Hash? then Malformed
        else if HasKey(v.entries, Str("sequence")) then Payload(v.entries)
        else Noise
  }

  /** How the reader sees a line. */
  type Classifier = string -> Carrying

  /** The reader of Ruby logger output: the payload after `-- :`, decoded. */
  function LogLines(decode: Decoder): Classifier {
    line => Classify(line, decode)
  }

  /** A parser: the stream's lines, how many were read, and the optional
      sequence to filter on. */
  datatype Parser = Parser(lines: seq<string>, pos: nat, filter: Value)

  /** `LogParser.new(stream, sequence)` */
  function NewParser(lines: seq<string>, filter: Value): (p: Parser)
    ensures p.lines == lines && p.filter == filter && p.pos == 0
  {
    Parser(lines, 0, filter)
  }

  /** `eof?` */
  predicate AtEnd(p: Parser) {
    p.pos >= |p.lines|
  }

  /** The outcome of one `next`: a message (true), the end of the stream
      (false), or the exception a malformed payload raises. */
  datatype Step =
    | Yield(after: Parser, msg: LogMessage)
    | Exhausted(after: Parser)
    | Raised(after: Parser, line: string)

  /** A payload passes the filter: there is none, or its sequence equals it. */
  predicate Selected(filter: Value, entries: seq<Entry>) {
    !Truthy(filter) || Equal(filter, Lookup(entries, Str("sequence")))
  }

  /** `next(msg)` as written: the first line with a sequenced payload ends
      the call with true, and the message is populated only if the payload
      passes the filter; otherwise the caller is left holding the fresh,
      empty message it passed in. */
  function NextAsWritten(p: Parser, classify: Classifier): (s: Step)
    ensures s.after.lines == p.lines && s.after.filter == p.filter
    ensures !s.Exhausted? ==> p.pos < s.after.pos <= |p.lines|
    decreases |p.lines| - p.pos
  {
    if p.pos >= |p.lines| then Exhausted(p)
    else
      var line := p.lines[p.pos];
      var rest := p.(pos := p.pos + 1);
      match classify(line)
      case Noise => NextAsWritten(rest, classify)
      case Malformed => Raised(rest, line)
      case Payload(es) =>
        Yield(rest, if Selected(p.filter, es) then Populate(line, Hash(es)) else Blank())
  }

  /** `next(msg)` as evidently intended: payloads of other sequences are
      skipped like any other line that is not for us, so every message
      handed out is populated and passes the filter. */
  function Next(p: Parser, classify: Classifier): (s: Step)
    ensures s.after.lines == p.lines && s.after.filter == p.filter
    ensures !s.Exhausted? ==> p.pos < s.after.pos <= |p.lines|
    ensures s.Yield? ==> Truthy(p.filter) ==> Equal(p.filter, s.msg.sequence)
    ensures s.Yield? ==> s.msg.line == Str(p.lines[s.after.pos - 1])
    decreases |p.lines| - p.pos
  {
    if p.pos >= |p.lines| then Exhausted(p)
    else
      var line := p.lines[p.pos];
      var rest := p.(pos := p.pos + 1);
      match classify(line)
      case Noise => Next(rest, classify)
      case Malformed => Raised(rest, line)
      case Payload(es) =>
        if Selected(p.filter, es) then Yield(rest, Populate(line, Hash(es)))
        else Next(rest, classify)
  }

  /** `while parser.next(item)` with the corrected reader: every message up
      to the end of the stream, or the line whose payload raised. */
  function ReadAll(p: Parser, classify: Classifier): (r: Result<seq<LogMessage>, string>)
    ensures r.Success? ==> forall i :: 0 <= i < |r.value| ==>
      Truthy(p.filter) ==> Equal(p.filter, r.value[i].sequence)
    ensures r.Success? && p.pos <= |p.lines| ==> |r.value| <= |p.lines| - p.pos
    decreases |p.lines| - p.pos
  {
    match Next(p, classify)
    case Exhausted(_) => Success([])
    case Raised(_, line) => Failure(line)
    case Yield(q, m) =>
      match ReadAll(q, classify)
      case Success(ms) => Success([m] + ms)
      case Failure(line) => Failure(line)
  }

  /** The same loop over `next` as written. */
  function ReadAllAsWritten(p: Parser, classify: Classifier): (r: Result<seq<LogMessage>, string>)
    ensures r.Success? && p.pos <= |p.lines| ==> |r.value| <= |p.lines| - p.pos
    decreases |p.lines| - p.pos
  {
    match NextAsWritten(p, classify)
    case Exhausted(_) => Success([])
    case Raised(_, line) => Failure(line)
    case Yield(q, m) =>
      match ReadAllAsWritten(q, classify)
      case Success(ms) => Success([m] + ms)
      case Failure(line) => Failure(line)
  }

  // ---------------------------------------------------------------------
  // Reference: which lines carry messages, and which of them are kept
  // ---------------------------------------------------------------------

  /** A line and the payload decoded from it. */
  datatype Carried = Carried(line: string, entries: seq<Entry>)

  /** The sequenced payloads of the lines, in order, or the first line whose
      payload does not decode to a hash. */
  function Payloads(lines: seq<string>, classify: Classifier): Result<seq<Carried>, string>
    decreases |lines|
  {
    if |lines| == 0 then Success([])
    else
      match classify(lines[0])
      case Malformed => Failure(lines[0])
      case Noise => Payloads(lines[1..], classify)
      case Payload(es) =>
        match Payloads(lines[1..], classify)
        case Success(cs) => Success([Carried(lines[0], es)] + cs)
        case Failure(l) => Failure(l)
  }

  /** The messages of the payloads that pass the filter. */
  function Kept(filter: Value, cs: seq<Carried>): seq<LogMessage>
    decreases |cs|
  {
    if |cs| == 0 then []
    else if Selected(filter, cs[0].entries) then [Populate(cs[0].line, Hash(cs[0].entries))] + Kept(filter, cs[1..])
    else Kept(filter, cs[1..])
  }

  /** What the reader as written hands out: one message per sequenced
      payload, empty where the payload fails the filter. */
  function OnePerPayload(filter: Value, cs: seq<Carried>): (ms: seq<LogMessage>)
    ensures |ms| == |cs|
    decreases |cs|
  {
    if |cs| == 0 then []
    else [if Selected(filter, cs[0].entries) then Populate(cs[0].line, Hash(cs[0].entries)) else Blank()]
         + OnePerPayload(filter, cs[1..])
  }

  /** The reader as written hands out, for each sequenced payload, either
      the empty message or the populated message of a payload that passes
      the filter. */
  lemma {:induction false} OnePerPayloadAt(filter: Value, cs: seq<Carried>, i: nat)
    requires i < |cs|
    ensures var m := OnePerPayload(filter, cs)[i];
      m == Blank() || (Selected(filter, cs[i].entries) && m == Populate(cs[i].line, Hash(cs[i].entries)))
    decreases i
  {
    if i > 0 {
      OnePerPayloadAt(filter, cs[1..], i - 1);
      assert OnePerPayload(filter, cs)[i] == OnePerPayload(filter, cs[1..])[i - 1];
    }
  }

  function MapMessages(r: Result<seq<Carried>, string>, f: seq<Carried> -> seq<LogMessage>): Result<seq<LogMessage>, string> {
    match r
    case Success(cs) => Success(f(cs))
    case Failure(l) => Failure(l)
  }

  /** The corrected reader yields exactly the populated messages of the
      payloads that pass the filter, in stream order, and raises exactly
      where a payload does not decode. */
  lemma {:induction false} ReadAllIsKeptPayloads(lines: seq<string>, pos: nat, filter: Value, classify: Classifier)
    requires pos <= |lines|
    ensures ReadAll(Parser(lines, pos, filter), classify) ==
            MapMessages(Payloads(lines[pos..], classify), cs => Kept(filter, cs))
    decreases |lines| - pos
  {
    var p := Parser(lines, pos, filter);
    if pos < |lines| {
      var rest := p.(pos := pos + 1);
      assert lines[pos..][0] == lines[pos] && lines[pos..][1..] == lines[pos + 1..];
      ReadAllIsKeptPayloads(lines, pos + 1, filter, classify);
      match classify(lines[pos])
      case Noise =>
        assert Next(p, classify) == Next(rest, classify);
      case Malformed =>
      case Payload(es) =>
        if !Selected(filter, es) {
          assert Next(p, classify) == Next(rest, classify);
        }
    } else {
      assert lines[pos..] == [];
    }
  }

  /** The reader as written yields one message for every sequenced payload,
      filtered or not, and the ones the filter rejects are empty. */
  lemma {:induction false} ReadAllAsWrittenIsOnePerPayload(lines: seq<string>, pos: nat, filter: Value, classify: Classifier)
    requires pos <= |lines|
    ensures ReadAllAsWritten(Parser(lines, pos, filter), classify) ==
            MapMessages(Payloads(lines[pos..], classify), cs => OnePerPayload(filter, cs))
    decreases |lines| - pos
  {
    var p := Parser(lines, pos, filter);
    if pos < |lines| {
      var rest := p.(pos := pos + 1);
      assert lines[pos..][0] == lines[pos] && lines[pos..][1..] == lines[pos + 1..];
      ReadAllAsWrittenIsOnePerPayload(lines, pos + 1, filter, classify);
      match classify(lines[pos])
      case Noise =>
        assert NextAsWritten(p, classify) == NextAsWritten(rest, classify);
      case Malformed =>
      case Payload(es) =>
    } else {
      assert lines[pos..] == [];
    }
  }

  /** Without a filter every payload is kept. */
  lemma {:induction false} KeptWithoutFilter(filter: Value, cs: seq<Carried>)
    requires !Truthy(filter)
    ensures Kept(filter, cs) == OnePerPayload(filter, cs)
    decreases |cs|
  {
    if |cs| > 0 {
      KeptWithoutFilter(filter, cs[1..]);
    }
  }

  /** Without a filter the two readers agree: the defect only shows when a
      sequence is given. */
  lemma ReadersAgreeWithoutFilter(lines: seq<string>, filter: Value, classify: Classifier)
    requires !Truthy(filter)
    ensures ReadAll(NewParser(lines, filter), classify) == ReadAllAsWritten(NewParser(lines, filter), classify)
  {
    ReadAllIsKeptPayloads(lines, 0, filter, classify);
    ReadAllAsWrittenIsOnePerPayload(lines, 0, filter, classify);
    assert lines[0..] == lines;
    match Payloads(lines, classify)
    case Success(cs) => KeptWithoutFilter(filter, cs);
    case Failure(_) =>
  }

  /** A logger line whose payload holds `sequence` "B" is a sequenced
      payload. */
  lemma OtherSequenceLine(header: string, payload: string, decode: Decoder)
    requires NoDoubleDash(header)
    requires 2 <= |payload| && payload[0] == '{' && payload[|payload| - 1] == '}'
    requires forall k :: 0 <= k < |payload| ==> payload[k] != '\n'
    requires decode(payload) == Some(Hash([Entry(Str("sequence"), Str("B"))]))
    ensures LogLines(decode)(header + "-- : " + payload + "\n") == Payload([Entry(Str("sequence"), Str("B"))])
  {
    var es := [Entry(Str("sequence"), Str("B"))];
    var line := header + "-- : " + payload + "\n";
    assert ClassifyCapture(Some(payload), decode) == Payload(es) by {
      assert HasKey(es, Str("sequence"));
    }
    assert Classify(line, decode) == Payload(es) by {
      LoggerLineRoundTrip(header, payload, "\n");
    }
  }

  /** A logged line of sequence "B", read with the filter "A": the reader as
      written answers true and leaves the caller an empty message (whose
      depth is nil, which the pretty printer then adds 1 to); the corrected
      reader yields nothing. */
  lemma FilteredReadYieldsBlank(header: string, payload: string, decode: Decoder)
    requires NoDoubleDash(header)
    requires 2 <= |payload| && payload[0] == '{' && payload[|payload| - 1] == '}'
    requires forall k :: 0 <= k < |payload| ==> payload[k] != '\n'
    requires decode(payload) == Some(Hash([Entry(Str("sequence"), Str("B"))]))
    ensures var lines := [header + "-- : " + payload + "\n"];
      && ReadAllAsWritten(NewParser(lines, Str("A")), LogLines(decode)) == Success([Blank()])
      && ReadAll(NewParser(lines, Str("A")), LogLines(decode)) == Success([])
  {
    OtherSequenceLine(header, payload, decode);
    assert !Selected(Str("A"), [Entry(Str("sequence"), Str("B"))]) by {
      assert Lookup([Entry(Str("sequence"), Str("B"))], Str("sequence")) == Str("B");
    }
    UnselectedPayloadIsBlank([header + "-- : " + payload + "\n"], Str("A"), LogLines(decode));
  }

  /** The general case behind the example: a stream whose only sequenced
      payload fails the filter gives one empty message as written and none
      when corrected. */
  lemma UnselectedPayloadIsBlank(lines: seq<string>, filter: Value, classify: Classifier)
    requires |lines| == 1 && classify(lines[0]).Payload?
    requires !Selected(filter, classify(lines[0]).entries)
    ensures ReadAllAsWritten(NewParser(lines, filter), classify) == Success([Blank()])
    ensures ReadAll(NewParser(lines, filter), classify) == Success([])
  {
    var p := NewParser(lines, filter);
    var q := p.(pos := 1);
    assert NextAsWritten(q, classify) == Exhausted(q);
    assert ReadAllAsWritten(q, classify) == Success([]);
    assert NextAsWritten(p, classify) == Yield(q, Blank());
    assert [Blank()] + [] == [Blank()];
    assert Next(q, classify) == Exhausted(q);
    assert Next(p, classify) == Exhausted(q);
    assert ReadAll(p, classify) == Success([]);
  }
}
