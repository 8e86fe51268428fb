/**
 `PrettyPrintLogAction`: rebuilding and printing executions from a log.

 Messages are buffered per sequence. A root output message closes its
 sequence's buffer, which is printed at once and forgotten; buffers still
 open when the stream ends are printed afterwards in the order they were
 opened. Every printed line is two spaces per depth level followed by the
 text.

 The action writes to a stream as it goes and stops with an exception on
 the first item it cannot handle; here the printed lines are the result,
 and the exception is a `Failure` carrying a description.
 */
module PrettyPrint {
  import opened Wrappers
  import opened Values
  import opened Constants
  import opened LogParser

  // ---------------------------------------------------------------------
  // Grouping messages per sequence
  // ---------------------------------------------------------------------

  /** The messages collected so far for one sequence (`sequences[id]`). */
  datatype Buffer = Buffer(id: Value, items: seq<LogMessage>)

  /** The printed groups, in the order they were flushed, and the buffers
      still open, in the order they were created. */
  datatype Groups = Groups(flushed: seq<seq<LogMessage>>, open: seq<Buffer>)

  /** The position of the buffer for `id` (`sequences.key?(id)`). */
  function FindBuffer(bs: seq<Buffer>, id: Value): (r: Option<nat>)
    ensures r.Some? ==> r.value < |bs| && bs[r.value].id == id
    ensures r.Some? ==> forall j :: 0 <= j < r.value ==> bs[j].id != id
    ensures r.None? ==> forall j :: 0 <= j < |bs| ==> bs[j].id != id
  {
    if |bs| == 0 then None
    else if bs[0].id == id then Some(0)
    else match FindBuffer(bs[1..], id)
      case None => None
      case Some(j) => Some(j + 1)
  }

  /** `item.kind?(LOG_KIND_COMMAND_OUTPUT) && item.root?`: the message that
      completes an execution. */
  predicate ClosesGroup(m: LogMessage) {
    IsKind(m, Sym(KindName(CommandOutput))) && IsRoot(m)
  }

  /** `process_other`: append the message to its sequence's buffer, creating
      the buffer at the end on first use. */
  function ProcessOther(bs: seq<Buffer>, item: LogMessage): (r: seq<Buffer>)
    ensures FindBuffer(bs, item.sequence).Some? ==> |r| == |bs|
    ensures FindBuffer(bs, item.sequence).None? ==> |r| == |bs| + 1 && r[|bs|] == Buffer(item.sequence, [item])
    ensures forall j :: 0 <= j < |bs| ==> r[j].id == bs[j].id
    ensures forall j :: 0 <= j < |bs| ==>
      r[j].items == (if FindBuffer(bs, item.sequence) == Some(j) then bs[j].items + [item] else bs[j].items)
  {
    match FindBuffer(bs, item.sequence)
    case Some(i) => bs[i := Buffer(bs[i].id, bs[i].items + [item])]
    case None => bs + [Buffer(item.sequence, [item])]
  }

  /** `bs` without its `i`th buffer (`sequences.delete`). */
  function Remove(bs: seq<Buffer>, i: nat): (r: seq<Buffer>)
    requires i < |bs|
    ensures |r| == |bs| - 1
    ensures forall j :: 0 <= j < i ==> r[j] == bs[j]
    ensures forall j :: i <= j < |r| ==> r[j] == bs[j + 1]
  {
    bs[..i] + bs[i + 1..]
  }

  /** `process_output`: the buffer of the message's sequence, with the
      message appended, is flushed and removed. A root output without an
      open buffer raises (`nil << item`). */
  function ProcessOutput(g: Groups, item: LogMessage): (r: Result<Groups, string>)
    ensures r.Failure? <==> FindBuffer(g.open, item.sequence).None?
    ensures r.Success? ==> |r.value.flushed| == |g.flushed| + 1 && r.value.flushed[..|g.flushed|] == g.flushed
    ensures r.Success? ==> |r.value.open| == |g.open| - 1
  {
    match FindBuffer(g.open, item.sequence)
    case None => Failure("undefined method '<<' for nil")
    case Some(i) => Success(Groups(g.flushed + [g.open[i].items + [item]], Remove(g.open, i)))
  }

  /** One turn of `execute_internal`'s loop. */
  function Consume(g: Groups, item: LogMessage): Result<Groups, string> {
    if ClosesGroup(item) then ProcessOutput(g, item)
    else Success(Groups(g.flushed, ProcessOther(g.open, item)))
  }

  /** The loop over all messages, from no buffers. */
  function GroupAll(items: seq<LogMessage>): Result<Groups, string>
    decreases |items|
  {
    if |items| == 0 then Success(Groups([], []))
    else
      match GroupAll(items[..|items| - 1])
      case Failure(e) => Failure(e)
      case Success(g) => Consume(g, items[|items| - 1])
  }

  // ---------------------------------------------------------------------
  // What grouping keeps: every message, in order, per sequence
  // ---------------------------------------------------------------------

  /** The messages of one sequence, in order. */
  function Only(xs: seq<LogMessage>, id: Value): seq<LogMessage>
    decreases |xs|
  {
    if |xs| == 0 then []
    else (if xs[0].sequence == id then [xs[0]] else []) + Only(xs[1..], id)
  }

  lemma {:induction false} OnlyAppend(a: seq<LogMessage>, b: seq<LogMessage>, id: Value)
    ensures Only(a + b, id) == Only(a, id) + Only(b, id)
    decreases |a|
  {
    if |a| == 0 {
      assert a + b == b;
    } else {
      var head := if a[0].sequence == id then [a[0]] else [];
      assert (a + b)[0] == a[0];
      assert (a + b)[1..] == a[1..] + b;
      calc {
        Only(a + b, id);
        head + Only(a[1..] + b, id);
        { OnlyAppend(a[1..], b, id); }
        head + (Only(a[1..], id) + Only(b, id));
        (head + Only(a[1..], id)) + Only(b, id);
      }
    }
  }

  /** All messages of `xs` belong to `id`. */
  predicate Homogeneous(xs: seq<LogMessage>, id: Value) {
    forall i :: 0 <= i < |xs| ==> xs[i].sequence == id
  }

  lemma {:induction false} OnlyHomogeneous(xs: seq<LogMessage>, s: Value, id: Value)
    requires Homogeneous(xs, s)
    ensures Only(xs, id) == if s == id then xs else []
    decreases |xs|
  {
    if |xs| > 0 {
      OnlyHomogeneous(xs[1..], s, id);
    }
  }

  /** The flushed groups one after another. */
  function Flatten(gs: seq<seq<LogMessage>>): seq<LogMessage>
    decreases |gs|
  {
    if |gs| == 0 then [] else Flatten(gs[..|gs| - 1]) + gs[|gs| - 1]
  }

  /** The open buffers' messages one after another. */
  function FlattenOpen(bs: seq<Buffer>): seq<LogMessage>
    decreases |bs|
  {
    if |bs| == 0 then [] else bs[0].items + FlattenOpen(bs[1..])
  }

  /** The messages of the buffer for `id`, or none. */
  function BufferItems(bs: seq<Buffer>, id: Value): seq<LogMessage> {
    match FindBuffer(bs, id)
    case Some(i) => bs[i].items
    case None => []
  }

  predicate DistinctIds(bs: seq<Buffer>) {
    forall i, j :: 0 <= i < j < |bs| ==> bs[i].id != bs[j].id
  }

  /** Open buffers: one per sequence, non-empty, holding only that
      sequence's messages. */
  predicate WellFormedOpen(bs: seq<Buffer>) {
    DistinctIds(bs) && forall i :: 0 <= i < |bs| ==> BufferOk(bs[i])
  }

  /** A buffer holds at least one message, all of its own sequence. */
  predicate BufferOk(b: Buffer) {
    |b.items| > 0 && Homogeneous(b.items, b.id)
  }

  /** A flushed group: messages of one sequence ending with the root output
      that closed it. */
  predicate ClosedGroup(xs: seq<LogMessage>) {
    |xs| > 0 && Homogeneous(xs, xs[|xs| - 1].sequence) && ClosesGroup(xs[|xs| - 1])
  }

  predicate WellFormed(g: Groups) {
    WellFormedOpen(g.open) && forall i :: 0 <= i < |g.flushed| ==> ClosedGroup(g.flushed[i])
  }

  /** Everything the printer will print, in printing order. */
  function Printed(g: Groups): seq<LogMessage> {
    Flatten(g.flushed) + FlattenOpen(g.open)
  }

  /** In well-formed buffers the messages of one sequence are exactly its
      buffer's. */
  lemma {:induction false} OnlyOpenIsBuffer(bs: seq<Buffer>, id: Value)
    requires WellFormedOpen(bs)
    ensures Only(FlattenOpen(bs), id) == BufferItems(bs, id)
    decreases |bs|
  {
    if |bs| > 0 {
      assert WellFormedOpen(bs[1..]);
      OnlyOpenIsBuffer(bs[1..], id);
      OnlyAppend(bs[0].items, FlattenOpen(bs[1..]), id);
      OnlyHomogeneous(bs[0].items, bs[0].id, id);
      if bs[0].id == id {
        assert FindBuffer(bs[1..], id).None?;
      }
    }
  }

  /** Every sequence's view of what has been read: its flushed messages
      followed by its open buffer. */
  ghost predicate Tracks(g: Groups, items: seq<LogMessage>) {
    forall id :: Only(Flatten(g.flushed), id) + BufferItems(g.open, id) == Only(items, id)
  }

  /** `process_other` keeps the buffers one per sequence and homogeneous. */
  lemma ProcessOtherWellFormed(bs: seq<Buffer>, item: LogMessage)
    requires WellFormedOpen(bs)
    ensures WellFormedOpen(ProcessOther(bs, item))
  {
    var r := ProcessOther(bs, item);
    match FindBuffer(bs, item.sequence)
    case Some(i) =>
      forall j | 0 <= j < |r|
        ensures BufferOk(r[j])
      {
        assert BufferOk(bs[j]);
        if j == i {
          assert r[j].items == bs[j].items + [item];
        }
      }
    case None =>
      forall j | 0 <= j < |bs|
        ensures BufferOk(r[j]) && r[j].id != item.sequence
      {
        assert BufferOk(bs[j]);
      }
  }

  /** The buffer of a sequence after `process_other`: the message is added
      to its own sequence's buffer and to no other. */
  lemma ProcessOtherBuffers(bs: seq<Buffer>, item: LogMessage, id: Value)
    requires WellFormedOpen(bs)
    ensures BufferItems(ProcessOther(bs, item), id) ==
      BufferItems(bs, id) + (if item.sequence == id then [item] else [])
  {
    if FindBuffer(bs, item.sequence).Some? {
      SameIdsSameFind(ProcessOther(bs, item), bs, id);
    } else {
      NewBufferFind(bs, item, id);
    }
  }

  /** A buffer created at the end is found only for its own sequence. */
  lemma NewBufferFind(bs: seq<Buffer>, item: LogMessage, id: Value)
    requires FindBuffer(bs, item.sequence).None?
    ensures FindBuffer(ProcessOther(bs, item), id) ==
      if FindBuffer(bs, id).Some? then FindBuffer(bs, id)
      else if id == item.sequence then Some(|bs|)
      else None
  {
    var r := bs + [Buffer(item.sequence, [item])];
    assert ProcessOther(bs, item) == r;
    if FindBuffer(bs, id).Some? {
      FoundAt(r, id, FindBuffer(bs, id).value);
    } else if id == item.sequence {
      FoundAt(r, id, |bs|);
    } else {
      NotFound(r, id);
    }
  }

  /** The first buffer carrying `id` is the one found. */
  lemma {:induction false} FoundAt(bs: seq<Buffer>, id: Value, k: nat)
    requires k < |bs| && bs[k].id == id
    requires forall j :: 0 <= j < k ==> bs[j].id != id
    ensures FindBuffer(bs, id) == Some(k)
    decreases k
  {
    if k > 0 {
      FoundAt(bs[1..], id, k - 1);
    }
  }

  /** No buffer carrying `id` is found when none carries it. */
  lemma {:induction false} NotFound(bs: seq<Buffer>, id: Value)
    requires forall j :: 0 <= j < |bs| ==> bs[j].id != id
    ensures FindBuffer(bs, id).None?
    decreases |bs|
  {
    if |bs| > 0 {
      NotFound(bs[1..], id);
    }
  }

  /** Buffers with the same ids in the same places are searched alike. */
  lemma {:induction false} SameIdsSameFind(a: seq<Buffer>, b: seq<Buffer>, id: Value)
    requires |a| == |b| && forall j :: 0 <= j < |a| ==> a[j].id == b[j].id
    ensures FindBuffer(a, id) == FindBuffer(b, id)
    decreases |a|
  {
    if |a| > 0 {
      SameIdsSameFind(a[1..], b[1..], id);
    }
  }

  /** Removing a buffer keeps the rest one per sequence and homogeneous. */
  lemma RemoveWellFormed(bs: seq<Buffer>, i: nat)
    requires WellFormedOpen(bs) && i < |bs|
    ensures WellFormedOpen(Remove(bs, i))
  {
    var r := Remove(bs, i);
    forall j | 0 <= j < |r|
      ensures BufferOk(r[j])
    {
      if j < i {
        assert BufferOk(bs[j]);
      } else {
        assert BufferOk(bs[j + 1]);
      }
    }
  }

  /** Removing the buffer of one sequence leaves every other sequence's
      buffer where it can be found, and that sequence with none. */
  lemma RemoveBuffers(bs: seq<Buffer>, i: nat, id: Value)
    requires WellFormedOpen(bs) && i < |bs|
    ensures BufferItems(Remove(bs, i), id) == if bs[i].id == id then [] else BufferItems(bs, id)
  {
    var r := Remove(bs, i);
    if bs[i].id == id {
      forall j | 0 <= j < |r| ensures r[j].id != id {
        if j >= i { assert r[j] == bs[j + 1]; }
      }
      NotFound(r, id);
    } else if FindBuffer(bs, id).Some? {
      var k := FindBuffer(bs, id).value;
      var k' := if k < i then k else k - 1;
      assert r[k'] == bs[k];
      forall j | 0 <= j < k' ensures r[j].id != id {
        if j >= i { assert r[j] == bs[j + 1]; }
      }
      FoundAt(r, id, k');
    } else {
      forall j | 0 <= j < |r| ensures r[j].id != id {
        if j >= i { assert r[j] == bs[j + 1]; }
      }
      NotFound(r, id);
    }
  }

  /** One turn of the loop keeps the groups well formed. */
  lemma ConsumeWellFormed(g: Groups, item: LogMessage)
    requires WellFormed(g)
    requires Consume(g, item).Success?
    ensures WellFormed(Consume(g, item).value)
  {
    var g' := Consume(g, item).value;
    if ClosesGroup(item) {
      var i := FindBuffer(g.open, item.sequence).value;
      var b := g.open[i];
      RemoveWellFormed(g.open, i);
      assert BufferOk(b);
      assert g'.flushed == g.flushed + [b.items + [item]];
      assert ClosedGroup(b.items + [item]);
    } else {
      ProcessOtherWellFormed(g.open, item);
    }
  }

  /** One turn of the loop adds the message to its own sequence's view and
      to no other. */
  lemma ConsumeTracksId(g: Groups, items: seq<LogMessage>, item: LogMessage, id: Value)
    requires WellFormed(g)
    requires Only(Flatten(g.flushed), id) + BufferItems(g.open, id) == Only(items, id)
    requires Consume(g, item).Success?
    ensures var g' := Consume(g, item).value;
      Only(Flatten(g'.flushed), id) + BufferItems(g'.open, id) == Only(items + [item], id)
  {
    OnlyAppend(items, [item], id);
    assert Only([item], id) == if item.sequence == id then [item] else [];
    if ClosesGroup(item) {
      CloseTracksId(g, item, id);
    } else {
      ProcessOtherBuffers(g.open, item, id);
    }
  }

  /** Flushing a sequence moves its buffer, with the closing message, from
      the open buffers to the flushed groups. */
  lemma CloseTracksId(g: Groups, item: LogMessage, id: Value)
    requires WellFormed(g)
    requires ProcessOutput(g, item).Success?
    ensures var g' := ProcessOutput(g, item).value;
      Only(Flatten(g'.flushed), id) + BufferItems(g'.open, id) ==
        Only(Flatten(g.flushed), id) + BufferItems(g.open, id) + Only([item], id)
  {
    var g' := ProcessOutput(g, item).value;
    var i := FindBuffer(g.open, item.sequence).value;
    var b := g.open[i];
    var f := Flatten(g.flushed);
    assert BufferOk(b);
    assert g'.flushed == g.flushed + [b.items + [item]];
    assert Flatten(g'.flushed) == f + (b.items + [item]);
    OnlyAppend(f, b.items + [item], id);
    OnlyAppend(b.items, [item], id);
    OnlyHomogeneous(b.items, b.id, id);
    RemoveBuffers(g.open, i, id);
    if b.id == id {
      assert BufferItems(g.open, id) == b.items;
      assert BufferItems(g'.open, id) == [];
      assert Only(Flatten(g'.flushed), id) == Only(f, id) + (b.items + Only([item], id));
    } else {
      assert Only([item], id) == [];
      assert BufferItems(g'.open, id) == BufferItems(g.open, id);
      assert Only(Flatten(g'.flushed), id) == Only(f, id);
    }
  }

  /** One turn of the loop keeps every sequence's view up to date. */
  lemma ConsumeTracks(g: Groups, items: seq<LogMessage>, item: LogMessage)
    requires WellFormed(g) && Tracks(g, items)
    requires Consume(g, item).Success?
    ensures Tracks(Consume(g, item).value, items + [item])
  {
    var g' := Consume(g, item).value;
    forall id
      ensures Only(Flatten(g'.flushed), id) + BufferItems(g'.open, id) == Only(items + [item], id)
    {
      ConsumeTracksId(g, items, item, id);
    }
  }

  lemma SplitLast(xs: seq<LogMessage>)
    requires |xs| > 0
    ensures xs[..|xs| - 1] + [xs[|xs| - 1]] == xs
  {
  }

  /** The loop keeps the groups well formed. */
  lemma {:induction false} GroupAllWellFormed(items: seq<LogMessage>)
    requires GroupAll(items).Success?
    ensures WellFormed(GroupAll(items).value)
    decreases |items|
  {
    if |items| > 0 {
      var init := items[..|items| - 1];
      GroupAllWellFormed(init);
      ConsumeWellFormed(GroupAll(init).value, items[|items| - 1]);
    }
  }

  /** The loop keeps every sequence's view equal to the messages of that
      sequence read so far. */
  lemma {:induction false} GroupAllTracks(items: seq<LogMessage>)
    requires GroupAll(items).Success?
    ensures Tracks(GroupAll(items).value, items)
    decreases |items|
  {
    if |items| > 0 {
      var init := items[..|items| - 1];
      var last := items[|items| - 1];
      var g := GroupAll(init).value;
      SplitLast(items);
      assert GroupAll(items) == Consume(g, last);
      GroupAllTracks(init);
      GroupAllWellFormed(init);
      ConsumeTracks(g, init, last);
    }
  }

  /** Grouping loses, duplicates and reorders nothing within a sequence: the
      printed messages of every sequence are exactly the ones read, in the
      order read. */
  lemma GroupAllKeepsSequences(items: seq<LogMessage>, id: Value)
    requires GroupAll(items).Success?
    ensures Only(Printed(GroupAll(items).value), id) == Only(items, id)
  {
    var g := GroupAll(items).value;
    GroupAllWellFormed(items);
    GroupAllTracks(items);
    assert Only(Flatten(g.flushed), id) + BufferItems(g.open, id) == Only(items, id);
    OnlyAppend(Flatten(g.flushed), FlattenOpen(g.open), id);
    OnlyOpenIsBuffer(g.open, id);
  }

  // ---------------------------------------------------------------------
  // Printing one message
  // ---------------------------------------------------------------------

  /** `''.rjust(depth * 2)`: two spaces per level, none for a level below 1. */
  function Pad(depth: int): (r: string)
    ensures r == Spaces(if depth > 0 then 2 * depth else 0)
  {
    RJust("", 2 * depth)
  }

  /** `println(depth, line)`: the padding followed by the text. */
  function Println(depth: int, text: string): string {
    Pad(depth) + text
  }

  /** A line printed at a level starts with exactly two spaces per level,
      and the text follows unchanged. */
  lemma PrintlnIndentation(depth: nat, text: string)
    requires Unpadded(text)
    ensures LeadingSpaces(Println(depth, text)) == 2 * depth
    ensures Println(depth, text)[2 * depth..] == text
  {
    LeadingSpacesOfPadding(2 * depth, text);
  }

  /** `"#{k}: #{v}"`. */
  function PairText(k: Value, v: Value): string {
    Show(k) + ": " + Show(v)
  }

  /** The text for one element of an array message: the block `|k, v|`
      splats an array element into its first two items and takes any other
      element as `k` with `v` nil. */
  function ElementText(x: Value): string {
    if x.Arr? then
      PairText(if |x.items| > 0 then x.items[0] else Nil, if |x.items| > 1 then x.items[1] else Nil)
    else PairText(x, Nil)
  }

  /** A message `print_msg` can print: a string, or something with `each`. */
  predicate Enumerable(msg: Value) {
    msg.Str? || msg.Hash? || msg.Arr?
  }

  /** The number of lines `print_msg` writes for a message. */
  function MsgLineCount(msg: Value): nat {
    match msg
    case Hash(es) => |es|
    case Arr(xs) => |xs|
    case _ => 1
  }

  /** `print_msg(depth, item)`: a string on one line, otherwise one line per
      pair. Anything else has no `each` and raises. */
  function PrintMsg(depth: int, msg: Value): (r: Result<seq<string>, string>)
    ensures r.Success? <==> Enumerable(msg)
    ensures r.Success? ==> |r.value| == MsgLineCount(msg)
    ensures r.Success? ==> forall i :: 0 <= i < |r.value| ==> Pad(depth) <= r.value[i]
  {
    match msg
    case Str(s) => Success([Println(depth, s)])
    case Hash(es) =>
      Success(seq(|es|, i requires 0 <= i < |es| => Println(depth, PairText(es[i].key, es[i].val))))
    case Arr(xs) =>
      Success(seq(|xs|, i requires 0 <= i < |xs| => Println(depth, ElementText(xs[i]))))
    case _ => Failure("undefined method 'each' for " + Inspect(msg))
  }

  /** Each entry of a hash message is printed on its own line, in order, at
      the given level; stripping the indentation gives back `key: value`. */
  lemma PrintMsgHashLines(depth: nat, es: seq<Entry>, i: nat)
    requires i < |es| && Unpadded(Show(es[i].key))
    ensures var lines := PrintMsg(depth, Hash(es)).value;
      && LeadingSpaces(lines[i]) == 2 * depth
      && lines[i][2 * depth..] == PairText(es[i].key, es[i].val)
  {
    var t := PairText(es[i].key, es[i].val);
    assert Show(es[i].key) + ": " + Show(es[i].val) == Show(es[i].key) + (": " + Show(es[i].val));
    assert Unpadded(t) by {
      if |Show(es[i].key)| > 0 {
        assert t[0] == Show(es[i].key)[0];
      }
    }
    PrintlnIndentation(depth, t);
  }

  const InputKind: Value := Sym(KindName(CommandInput))
  const OutputKind: Value := Sym(KindName(CommandOutput))

  /** A message `print_sequence_item` prints without raising: an integer
      depth, an enumerable message, and for a root input a command that can
      take `<<`. */
  predicate Printable(m: LogMessage) {
    && m.depth.Int?
    && Enumerable(m.msg)
    && (IsKind(m, InputKind) && IsRoot(m) ==> m.cmd.Str? || m.cmd.Arr?)
  }

  /** The heading of an input message: `item.cmd`, with ` (sequence)`
      appended at the root. A string gets the text, an array the element;
      anything else raises. */
  function Heading(m: LogMessage): (r: Result<Value, string>)
    ensures r.Success? <==> !IsRoot(m) || m.cmd.Str? || m.cmd.Arr?
    ensures !IsRoot(m) ==> r == Success(m.cmd)
  {
    var suffix := " (" + Show(m.sequence) + ")";
    if !IsRoot(m) then Success(m.cmd)
    else match m.cmd
      case Str(c) => Success(Str(c + suffix))
      case Arr(xs) => Success(Arr(xs + [Str(suffix)]))
      case _ => Failure("cannot append to " + Inspect(m.cmd))
  }

  /** The lines printed before the message's own: the heading and `input:`
      for an input, `output:` for an output, none otherwise. */
  function HeadLines(m: LogMessage): nat {
    if IsKind(m, InputKind) then 2 else if IsKind(m, OutputKind) then 1 else 0
  }

  /** How many levels below the item's depth its message is printed. */
  function MsgIndent(m: LogMessage): nat {
    if IsKind(m, InputKind) then 2 else 1
  }

  /** `print_sequence_item`. */
  function PrintItem(m: LogMessage): (r: Result<seq<string>, string>)
    ensures r.Success? <==> Printable(m)
    ensures r.Success? ==> |r.value| == HeadLines(m) + MsgLineCount(m.msg)
    ensures r.Success? ==> r.value[HeadLines(m)..] == PrintMsg(m.depth.i + MsgIndent(m), m.msg).value
  {
    if IsKind(m, InputKind) then
      match Heading(m)
      case Failure(e) => Failure(e)
      case Success(head) =>
        if !m.depth.Int? then Failure("undefined method '*' for " + Inspect(m.depth))
        else
          var d := m.depth.i;
          match PrintMsg(d + 2, m.msg)
          case Failure(e) => Failure(e)
          case Success(ls) => Success([Println(d, Show(head)), Println(d + 1, "input:")] + ls)
    else if !m.depth.Int? then
      Failure("undefined method for " + Inspect(m.depth))
    else if IsKind(m, OutputKind) then
      var d := m.depth.i;
      match PrintMsg(d + 1, m.msg)
      case Failure(e) => Failure(e)
      case Success(ls) => Success([Println(d, "output:")] + ls)
    else PrintMsg(m.depth.i + 1, m.msg)
  }

  /** The first lines of an item: an input is headed by its command at the
      item's level and `input:` one level deeper; an output by `output:` at
      the item's level. */
  lemma PrintItemHead(m: LogMessage)
    requires Printable(m) && m.depth.i >= 0
    ensures var lines := PrintItem(m).value;
      var d := m.depth.i;
      && (IsKind(m, InputKind) ==>
            && lines[0] == Println(d, Show(Heading(m).value))
            && LeadingSpaces(lines[1]) == 2 * d + 2 && lines[1][2 * d + 2..] == "input:")
      && (!IsKind(m, InputKind) && IsKind(m, OutputKind) ==>
            LeadingSpaces(lines[0]) == 2 * d && lines[0][2 * d..] == "output:")
  {
    var d := m.depth.i;
    if IsKind(m, InputKind) {
      PrintlnIndentation(d + 1, "input:");
    } else if IsKind(m, OutputKind) {
      PrintlnIndentation(d, "output:");
    }
  }

  /** A root input is headed by its command and sequence, unindented. */
  lemma RootInputHeading(m: LogMessage, c: string)
    requires IsKind(m, InputKind) && m.depth == Int(0) && m.cmd == Str(c) && Enumerable(m.msg)
    ensures PrintItem(m).Success?
    ensures PrintItem(m).value[0] == c + " (" + Show(m.sequence) + ")"
  {
    assert Pad(0) == "";
  }

  // ---------------------------------------------------------------------
  // Printing sequences of messages
  // ---------------------------------------------------------------------

  /** Two printing runs one after the other: the first failure, or both
      outputs. */
  function Then(a: Result<seq<string>, string>, b: Result<seq<string>, string>): Result<seq<string>, string> {
    match a
    case Failure(e) => Failure(e)
    case Success(x) =>
      match b
      case Failure(e) => Failure(e)
      case Success(y) => Success(x + y)
  }

  /** Printing runs one after the other, stopping at the first failure. */
  function Collect(rs: seq<Result<seq<string>, string>>): (r: Result<seq<string>, string>)
    ensures r.Success? <==> forall i :: 0 <= i < |rs| ==> rs[i].Success?
    decreases |rs|
  {
    if |rs| == 0 then Success([])
    else
      var init := rs[..|rs| - 1];
      assert forall i :: 0 <= i < |init| ==> init[i] == rs[i];
      Then(Collect(init), rs[|rs| - 1])
  }

  /** Collecting two lists of runs is collecting the first, then the
      second. */
  lemma {:induction false} CollectAppend(a: seq<Result<seq<string>, string>>, b: seq<Result<seq<string>, string>>)
    ensures Collect(a + b) == Then(Collect(a), Collect(b))
    decreases |b|
  {
    if |b| == 0 {
      assert a + b == a;
      if Collect(a).Success? {
        assert Collect(a).value + [] == Collect(a).value;
      }
    } else {
      var b' := b[..|b| - 1];
      var last := b[|b| - 1];
      assert (a + b)[..|a + b| - 1] == a + b';
      assert (a + b)[|a + b| - 1] == last;
      CollectAppend(a, b');
      match Collect(a)
      case Failure(_) =>
      case Success(x) =>
        match Collect(b')
        case Failure(_) =>
        case Success(y) =>
          match last
          case Failure(_) =>
          case Success(z) =>
            assert (x + y) + z == x + (y + z);
    }
  }

  /** The printing of each message on its own. */
  function ItemRuns(xs: seq<LogMessage>): (rs: seq<Result<seq<string>, string>>)
    ensures |rs| == |xs|
    ensures forall i :: 0 <= i < |xs| ==> rs[i].Success? == Printable(xs[i])
  {
    seq(|xs|, i requires 0 <= i < |xs| => PrintItem(xs[i]))
  }

  /** `print_sequence`: each message in turn, stopping at the first that
      raises. */
  function PrintSequence(xs: seq<LogMessage>): (r: Result<seq<string>, string>)
    ensures r.Success? <==> forall i :: 0 <= i < |xs| ==> Printable(xs[i])
  {
    Collect(ItemRuns(xs))
  }

  /** Printing two runs of messages is printing the first, then the second. */
  lemma PrintSequenceAppend(a: seq<LogMessage>, b: seq<LogMessage>)
    ensures PrintSequence(a + b) == Then(PrintSequence(a), PrintSequence(b))
  {
    ItemRunsAppend(a, b);
    CollectAppend(ItemRuns(a), ItemRuns(b));
  }

  lemma ItemRunsAppend(a: seq<LogMessage>, b: seq<LogMessage>)
    ensures ItemRuns(a + b) == ItemRuns(a) + ItemRuns(b)
  {
    var l, r := ItemRuns(a + b), ItemRuns(a) + ItemRuns(b);
    forall i | 0 <= i < |a + b|
      ensures l[i] == r[i]
    {
      if i < |a| {
        assert (a + b)[i] == a[i];
      } else {
        assert (a + b)[i] == b[i - |a|];
      }
    }
  }

  // ---------------------------------------------------------------------
  // The action
  // ---------------------------------------------------------------------

  /** The loop's state: the groups and what has been printed so far. */
  datatype Run = Run(groups: Groups, out: seq<string>)

  /** One turn of `execute_internal`'s loop: a root output flushes and prints
      its sequence at once. */
  function Turn(st: Run, item: LogMessage): Result<Run, string> {
    match Consume(st.groups, item)
    case Failure(e) => Failure(e)
    case Success(g) =>
      if ClosesGroup(item) && |g.flushed| > 0 then
        match PrintSequence(g.flushed[|g.flushed| - 1])
        case Failure(e) => Failure(e)
        case Success(ls) => Success(Run(g, st.out + ls))
      else Success(Run(g, st.out))
  }

  /** The loop over every message read. */
  function Loop(items: seq<LogMessage>): Result<Run, string>
    decreases |items|
  {
    if |items| == 0 then Success(Run(Groups([], []), []))
    else
      match Loop(items[..|items| - 1])
      case Failure(e) => Failure(e)
      case Success(st) => Turn(st, items[|items| - 1])
  }

  /** `execute_internal` after reading: the loop, then `print_sequences` for
      the buffers left open. */
  function PrettyPrintItems(items: seq<LogMessage>): Result<seq<string>, string> {
    match Loop(items)
    case Failure(e) => Failure(e)
    case Success(st) => Then(Success(st.out), PrintSequence(FlattenOpen(st.groups.open)))
  }

  /** The loop groups exactly as `GroupAll` does and has printed exactly the
      flushed groups, in the order they were flushed. */
  lemma {:induction false} LoopPrintsFlushed(items: seq<LogMessage>)
    ensures Loop(items).Success? <==>
      GroupAll(items).Success? && PrintSequence(Flatten(GroupAll(items).value.flushed)).Success?
    ensures Loop(items).Success? ==>
      && Loop(items).value.groups == GroupAll(items).value
      && Loop(items).value.out == PrintSequence(Flatten(GroupAll(items).value.flushed)).value
    decreases |items|
  {
    if |items| > 0 {
      var init := items[..|items| - 1];
      var item := items[|items| - 1];
      LoopPrintsFlushed(init);
      assert init + [item] == items;
      GroupAllSnoc(init, item);
      if GroupAll(init).Success? {
        var g := GroupAll(init).value;
        match Consume(g, item)
        case Failure(_) =>
        case Success(g') =>
          if ClosesGroup(item) {
            var last := g'.flushed[|g'.flushed| - 1];
            assert g'.flushed[..|g'.flushed| - 1] == g.flushed;
            assert Flatten(g'.flushed) == Flatten(g.flushed) + last;
            PrintSequenceAppend(Flatten(g.flushed), last);
          }
      }
    }
  }

  /** What the action prints is every grouped message, flushed groups first,
      then the open buffers in the order they were opened; it raises exactly
      when grouping raises or some grouped message cannot be printed. */
  lemma PrettyPrintIsPrintedGroups(items: seq<LogMessage>)
    ensures PrettyPrintItems(items).Success? <==>
      GroupAll(items).Success? && PrintSequence(Printed(GroupAll(items).value)).Success?
    ensures PrettyPrintItems(items).Success? ==>
      PrettyPrintItems(items).value == PrintSequence(Printed(GroupAll(items).value)).value
  {
    LoopPrintsFlushed(items);
    if GroupAll(items).Success? {
      var g := GroupAll(items).value;
      PrintSequenceAppend(Flatten(g.flushed), FlattenOpen(g.open));
    }
  }

  /** The action's output per sequence: when it succeeds, it is the printing
      of a reordering of the messages read that keeps every sequence's
      messages, in the order they were read. */
  lemma PrettyPrintKeepsSequences(items: seq<LogMessage>, id: Value)
    requires PrettyPrintItems(items).Success?
    ensures GroupAll(items).Success?
    ensures PrintSequence(Printed(GroupAll(items).value)).Success?
    ensures var printed := Printed(GroupAll(items).value);
      && PrettyPrintItems(items).value == PrintSequence(printed).value
      && Only(printed, id) == Only(items, id)
  {
    PrettyPrintIsPrintedGroups(items);
    GroupAllKeepsSequences(items, id);
  }

  /** `execute_internal` over the corrected reader: read the messages
      selected by the filter, then group and print them. A line that does
      not parse raises. */
  function ExecuteInternal(lines: seq<string>, filter: Value, classify: Classifier): Result<seq<string>, string> {
    match ReadAll(NewParser(lines, filter), classify)
    case Failure(line) => Failure("JSON::ParserError: " + line)
    case Success(items) => PrettyPrintItems(items)
  }

  /** `execute_internal` as written, over the reader as written. */
  function ExecuteInternalAsWritten(lines: seq<string>, filter: Value, classify: Classifier): Result<seq<string>, string> {
    match ReadAllAsWritten(NewParser(lines, filter), classify)
    case Failure(line) => Failure("JSON::ParserError: " + line)
    case Success(items) => PrettyPrintItems(items)
  }

  /** Under a filter every printed message carries the filtered sequence. */
  lemma ExecuteInternalFiltered(lines: seq<string>, filter: Value, classify: Classifier)
    requires Truthy(filter)
    requires ExecuteInternal(lines, filter, classify).Success?
    ensures ReadAll(NewParser(lines, filter), classify).Success?
    ensures var items := ReadAll(NewParser(lines, filter), classify).value;
      && GroupAll(items).Success?
      && PrintSequence(Printed(GroupAll(items).value)).Success?
      && ExecuteInternal(lines, filter, classify).value == PrintSequence(Printed(GroupAll(items).value)).value
      && forall i :: 0 <= i < |items| ==> Equal(filter, items[i].sequence)
  {
    var items := ReadAll(NewParser(lines, filter), classify).value;
    PrettyPrintIsPrintedGroups(items);
  }

  /** A message is among those of its sequence, and only those. */
  lemma {:induction false} InOnly(xs: seq<LogMessage>, id: Value, x: LogMessage)
    ensures x in Only(xs, id) <==> x in xs && x.sequence == id
    decreases |xs|
  {
    if |xs| > 0 {
      InOnly(xs[1..], id, x);
      assert xs == [xs[0]] + xs[1..];
    }
  }

  /** The action as written also prints only messages of the filtered
      sequence when it succeeds: the empty messages the reader hands out for
      other sequences have a nil depth, so printing them raises. */
  lemma ExecuteInternalAsWrittenFiltered(lines: seq<string>, filter: Value, classify: Classifier)
    requires Truthy(filter)
    requires ExecuteInternalAsWritten(lines, filter, classify).Success?
    ensures ReadAllAsWritten(NewParser(lines, filter), classify).Success?
    ensures var items := ReadAllAsWritten(NewParser(lines, filter), classify).value;
      forall i :: 0 <= i < |items| ==> Equal(filter, items[i].sequence)
  {
    var items := ReadAllAsWritten(NewParser(lines, filter), classify).value;
    ReadAllAsWrittenIsOnePerPayload(lines, 0, filter, classify);
    assert lines[0..] == lines;
    var cs := Payloads(lines, classify).value;
    assert items == OnePerPayload(filter, cs);
    forall i | 0 <= i < |items|
      ensures Equal(filter, items[i].sequence)
    {
      var x := items[i];
      OnePerPayloadAt(filter, cs, i);
      PrettyPrintKeepsSequences(items, x.sequence);
      var printed := Printed(GroupAll(items).value);
      InOnly(items, x.sequence, x);
      InOnly(printed, x.sequence, x);
      assert x in printed;
      assert Printable(x);
      assert x != Blank();
    }
  }

  /** The reader's defect reaches the action: a stream whose only sequenced
      line belongs to another sequence makes the action as written raise on
      the empty message's nil depth, while the corrected reader prints
      nothing. */
  lemma FilteredActionRaises(lines: seq<string>, filter: Value, classify: Classifier)
    requires |lines| == 1 && classify(lines[0]).Payload?
    requires !Selected(filter, classify(lines[0]).entries)
    ensures ExecuteInternalAsWritten(lines, filter, classify).Failure?
    ensures ExecuteInternal(lines, filter, classify) == Success([])
  {
    UnselectedPayloadIsBlank(lines, filter, classify);
    PrettyPrintEmpty();
    PrettyPrintBlankRaises();
  }

  /** Nothing read, nothing printed. */
  lemma PrettyPrintEmpty()
    ensures PrettyPrintItems([]) == Success([])
  {
    assert FlattenOpen([]) == [];
    assert PrintSequence([]) == Success([]);
    var none: seq<string> := [];
    assert none + none == none;
  }

  /** An empty message cannot be printed: its depth is nil. */
  lemma PrettyPrintBlankRaises()
    ensures PrettyPrintItems([Blank()]).Failure?
  {
    assert !Printable(Blank());
    var g := Groups([], [Buffer(Nil, [Blank()])]);
    assert GroupAll([Blank()]) == Success(g) by {
      assert [Blank()][..0] == [];
      assert !ClosesGroup(Blank());
      assert ProcessOther([], Blank()) == [Buffer(Nil, [Blank()])];
    }
    assert FlattenOpen(g.open) == [Blank()];
    PrettyPrintIsPrintedGroups([Blank()]);
    assert Printed(g) == [Blank()];
  }

  // ---------------------------------------------------------------------
  // A parent command that runs a child
  // ---------------------------------------------------------------------

  /** A message as the reader gives it back: no line, no slot key. */
  function Logged(cmd: string, sequence: Value, depth: int, kind: Kind, msg: Value): LogMessage {
    LogMessage(Nil, sequence, Int(depth), Str(cmd), Str(KindName(kind)), msg, Nil)
  }

  /** Grouping one more message is one more turn of the loop. */
  lemma GroupAllSnoc(items: seq<LogMessage>, x: LogMessage)
    ensures GroupAll(items + [x]) ==
      match GroupAll(items)
      case Failure(e) => Failure(e)
      case Success(g) => Consume(g, x)
  {
    assert (items + [x])[..|items|] == items;
  }

  /** The parent's input, the child's input and output, and the parent's
      output, as one execution of sequence `s` logs them, each message a
      hash of one entry. */
  function ParentChild(parent: string, child: string, s: string, e: seq<Entry>): seq<LogMessage>
    requires |e| == 4
  {
    [Logged(parent, Str(s), 0, CommandInput, Hash([e[0]])),
     Logged(child, Str(s), 1, CommandInput, Hash([e[1]])),
     Logged(child, Str(s), 1, CommandOutput, Hash([e[2]])),
     Logged(parent, Str(s), 0, CommandOutput, Hash([e[3]]))]
  }

  /** A first message that does not close anything opens its sequence's
      buffer. */
  lemma GroupFirst(x: LogMessage)
    requires !ClosesGroup(x)
    ensures GroupAll([x]) == Success(Groups([], [Buffer(x.sequence, [x])]))
  {
    GroupAllSnoc([], x);
    assert [] + [x] == [x];
    assert ProcessOther([], x) == [Buffer(x.sequence, [x])];
  }

  /** A message of the only open sequence that does not close it joins its
      buffer. */
  lemma GroupJoin(items: seq<LogMessage>, buf: seq<LogMessage>, x: LogMessage)
    requires GroupAll(items) == Success(Groups([], [Buffer(x.sequence, buf)]))
    requires !ClosesGroup(x)
    ensures GroupAll(items + [x]) == Success(Groups([], [Buffer(x.sequence, buf + [x])]))
  {
    GroupAllSnoc(items, x);
    assert FindBuffer([Buffer(x.sequence, buf)], x.sequence) == Some(0);
    assert ProcessOther([Buffer(x.sequence, buf)], x) == [Buffer(x.sequence, buf + [x])];
  }

  /** The root output of the only open sequence flushes it. */
  lemma GroupClose(items: seq<LogMessage>, buf: seq<LogMessage>, x: LogMessage)
    requires GroupAll(items) == Success(Groups([], [Buffer(x.sequence, buf)]))
    requires ClosesGroup(x)
    ensures GroupAll(items + [x]) == Success(Groups([buf + [x]], []))
  {
    GroupAllSnoc(items, x);
    assert FindBuffer([Buffer(x.sequence, buf)], x.sequence) == Some(0);
    assert Remove([Buffer(x.sequence, buf)], 0) == [];
  }

  /** The root output closes the execution, which is flushed whole and in
      order; nothing stays open. */
  lemma ParentChildGroups(parent: string, child: string, s: string, e: seq<Entry>)
    requires |e| == 4
    ensures GroupAll(ParentChild(parent, child, s, e)) ==
      Success(Groups([ParentChild(parent, child, s, e)], []))
  {
    var xs := ParentChild(parent, child, s, e);
    var a, b, c, d := xs[0], xs[1], xs[2], xs[3];
    ParentChildCloses(parent, child, s, e);
    GroupFirst(a);
    GroupJoin([a], [a], b);
    assert [a] + [b] == [a, b];
    GroupJoin([a, b], [a, b], c);
    assert [a, b] + [c] == [a, b, c];
    GroupClose([a, b, c], [a, b, c], d);
    assert [a, b, c] + [d] == xs;
  }

  /** Only the parent's output closes the execution. */
  lemma ParentChildCloses(parent: string, child: string, s: string, e: seq<Entry>)
    requires |e| == 4
    ensures var xs := ParentChild(parent, child, s, e);
      !ClosesGroup(xs[0]) && !ClosesGroup(xs[1]) && !ClosesGroup(xs[2]) && ClosesGroup(xs[3])
  {
    assert KindName(CommandInput) != KindName(CommandOutput) by {
      assert KindName(CommandInput)[8] != KindName(CommandOutput)[8];
    }
  }

  /** Printing one message is printing the message. */
  lemma PrintSequenceOne(x: LogMessage)
    ensures PrintSequence([x]) == PrintItem(x)
  {
    var rs := ItemRuns([x]);
    assert rs == [PrintItem(x)];
    assert rs[..0] == [];
    assert Collect(rs) == Then(Collect([]), PrintItem(x));
    if PrintItem(x).Success? {
      var none: seq<string> := [];
      assert none + PrintItem(x).value == PrintItem(x).value;
    }
  }

  /** Printing four messages is printing each in turn. */
  lemma PrintSequenceFour(a: LogMessage, b: LogMessage, c: LogMessage, d: LogMessage)
    ensures PrintSequence([a, b, c, d]) ==
      Then(Then(Then(PrintItem(a), PrintItem(b)), PrintItem(c)), PrintItem(d))
  {
    PrintSequenceOne(a);
    PrintSequenceOne(b);
    PrintSequenceOne(c);
    PrintSequenceOne(d);
    PrintSequenceAppend([a], [b]);
    assert [a] + [b] == [a, b];
    PrintSequenceAppend([a, b], [c]);
    assert [a, b] + [c] == [a, b, c];
    PrintSequenceAppend([a, b, c], [d]);
    assert [a, b, c] + [d] == [a, b, c, d];
  }

  /** A single execution that completes is printed in the order it was
      logged. */
  lemma SingleExecutionPrinted(xs: seq<LogMessage>)
    requires GroupAll(xs) == Success(Groups([xs], []))
    ensures PrettyPrintItems(xs).Success? <==> PrintSequence(xs).Success?
    ensures PrettyPrintItems(xs).Success? ==> PrettyPrintItems(xs).value == PrintSequence(xs).value
  {
    PrettyPrintIsPrintedGroups(xs);
    PrintedOneGroup(xs);
  }

  /** One flushed group and nothing open print as that group. */
  lemma PrintedOneGroup(xs: seq<LogMessage>)
    ensures Printed(Groups([xs], [])) == xs
  {
    assert [xs][..0] == [];
    assert Flatten([xs]) == Flatten([]) + xs;
    assert FlattenOpen([]) == [];
  }

  /** A hash of one entry prints as one line. */
  lemma OneEntryLine(depth: int, e: Entry)
    ensures PrintMsg(depth, Hash([e])) == Success([Println(depth, PairText(e.key, e.val))])
  {
    var r := PrintMsg(depth, Hash([e])).value;
    var line := Println(depth, PairText(e.key, e.val));
    assert |r| == 1 && r[0] == line;
    assert r == [line];
  }

  /** The parent's input: its command and sequence unindented, `input:` one
      level in, its message two levels in. */
  lemma RootInputLines(cmd: string, s: string, e: Entry)
    ensures PrintItem(Logged(cmd, Str(s), 0, CommandInput, Hash([e]))) ==
      Success([cmd + " (" + s + ")", Println(1, "input:"), Println(2, PairText(e.key, e.val))])
  {
    var m := Logged(cmd, Str(s), 0, CommandInput, Hash([e]));
    var head := cmd + " (" + s + ")";
    assert IsKind(m, InputKind) && IsRoot(m);
    assert cmd + (" (" + s + ")") == head;
    assert Heading(m) == Success(Str(head));
    assert Println(0, head) == head by {
      assert Pad(0) == "";
    }
    OneEntryLine(2, e);
    var ls := [Println(2, PairText(e.key, e.val))];
    assert [head, Println(1, "input:")] + ls == [head, Println(1, "input:"), ls[0]];
  }

  /** A child's input: its command at its own level, `input:` one level
      deeper, its message two levels deeper. */
  lemma ChildInputLines(cmd: string, s: string, depth: int, e: Entry)
    requires depth != 0
    ensures PrintItem(Logged(cmd, Str(s), depth, CommandInput, Hash([e]))) ==
      Success([Println(depth, cmd), Println(depth + 1, "input:"), Println(depth + 2, PairText(e.key, e.val))])
  {
    var m := Logged(cmd, Str(s), depth, CommandInput, Hash([e]));
    assert IsKind(m, InputKind) && !IsRoot(m);
    assert Heading(m) == Success(Str(cmd));
    OneEntryLine(depth + 2, e);
    var ls := [Println(depth + 2, PairText(e.key, e.val))];
    assert [Println(depth, cmd), Println(depth + 1, "input:")] + ls ==
      [Println(depth, cmd), Println(depth + 1, "input:"), ls[0]];
  }

  /** An output: `output:` at its command's level, its message one deeper. */
  lemma OutputLines(cmd: string, s: string, depth: int, e: Entry)
    ensures PrintItem(Logged(cmd, Str(s), depth, CommandOutput, Hash([e]))) ==
      Success([Println(depth, "output:"), Println(depth + 1, PairText(e.key, e.val))])
  {
    var m := Logged(cmd, Str(s), depth, CommandOutput, Hash([e]));
    assert KindName(CommandInput) != KindName(CommandOutput) by {
      assert KindName(CommandInput)[8] != KindName(CommandOutput)[8];
    }
    assert !IsKind(m, InputKind) && IsKind(m, OutputKind);
    OneEntryLine(depth + 1, e);
    var ls := [Println(depth + 1, PairText(e.key, e.val))];
    assert [Println(depth, "output:")] + ls == [Println(depth, "output:"), ls[0]];
  }

  /** The lines of the parent/child execution, message by message. */
  function ParentChildLines(parent: string, child: string, s: string, e: seq<Entry>): seq<string>
    requires |e| == 4
  {
    [parent + " (" + s + ")", Println(1, "input:"), Println(2, PairText(e[0].key, e[0].val))]
    + [Println(1, child), Println(2, "input:"), Println(3, PairText(e[1].key, e[1].val))]
    + [Println(1, "output:"), Println(2, PairText(e[2].key, e[2].val))]
    + [Println(0, "output:"), Println(1, PairText(e[3].key, e[3].val))]
  }

  /** Printing the execution's messages in the order logged. */
  lemma ParentChildSequence(parent: string, child: string, s: string, e: seq<Entry>)
    requires |e| == 4
    ensures PrintSequence(ParentChild(parent, child, s, e)) == Success(ParentChildLines(parent, child, s, e))
  {
    var xs := ParentChild(parent, child, s, e);
    PrintSequenceFour(xs[0], xs[1], xs[2], xs[3]);
    assert [xs[0], xs[1], xs[2], xs[3]] == xs;
    RootInputLines(parent, s, e[0]);
    ChildInputLines(child, s, 1, e[1]);
    OutputLines(child, s, 1, e[2]);
    OutputLines(parent, s, 0, e[3]);
  }

  /** The whole execution as the action prints it: the parent's command and
      sequence unindented, the child's lines one level below the parent's,
      between the parent's input and output. */
  lemma ParentChildPrinted(parent: string, child: string, s: string, e: seq<Entry>)
    requires |e| == 4
    ensures PrettyPrintItems(ParentChild(parent, child, s, e)) == Success(
      [parent + " (" + s + ")", Println(1, "input:"), Println(2, PairText(e[0].key, e[0].val))]
      + [Println(1, child), Println(2, "input:"), Println(3, PairText(e[1].key, e[1].val))]
      + [Println(1, "output:"), Println(2, PairText(e[2].key, e[2].val))]
      + [Println(0, "output:"), Println(1, PairText(e[3].key, e[3].val))])
  {
    var xs := ParentChild(parent, child, s, e);
    ParentChildGroups(parent, child, s, e);
    SingleExecutionPrinted(xs);
    ParentChildSequence(parent, child, s, e);
  }

  /** Two spaces per level. */
  lemma PadWidths()
    ensures Pad(0) == "" && Pad(1) == "  " && Pad(2) == "    " && Pad(3) == "      "
  {
  }
}
