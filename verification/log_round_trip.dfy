/**
 From the log entry a result emits to the message the reader gives back.

 In the JSON format the logger writes `JSON.generate` of the entry hash;
 the reader parses it again. `Jsonify` is what that round trip does to a
 value: symbols and class names become strings, hash keys become their
 `to_s`. The lemmas here show that the reader's comparisons recognise what
 the emitter wrote.
 */
module LogRoundTrip {
  import opened Wrappers
  import opened Values
  import opened Constants
  import opened Results
  import opened LogParser

  /** A value after `JSON.generate` and `JSON.parse`. */
  function Jsonify(v: Value): Value
    decreases v
  {
    match v
    case Nil => v
    case Bool(_) => v
    case Int(_) => v
    case Str(_) => v
    case Sym(n) => Str(n)
    case Cls(n) => Str(n)
    case Arr(xs) => Arr(seq(|xs|, i requires 0 <= i < |xs| => Jsonify(xs[i])))
    case Hash(es) =>
      Hash(seq(|es|, i requires 0 <= i < |es| => Entry(Str(Show(es[i].key)), Jsonify(es[i].val))))
    case Exe(_, _, _, _) => Str(Show(v))
  }

  /** A value JSON carries unchanged. */
  predicate Scalar(v: Value) {
    v.Nil? || v.Bool? || v.Int? || v.Str?
  }

  /** The decoded form of `build_log`'s hash: `sequence`, `cmd`, `depth`,
      `key` when the frame has one, `kind`, and `msg` when there is one. */
  function EntryPayload(e: LogEntry): (p: Value)
    ensures p.Hash?
  {
    Hash([Entry(Str("sequence"), Str(e.sequence)),
          Entry(Str("cmd"), Str(e.cmd)),
          Entry(Str("depth"), Int(e.depth))]
         + (if e.key.Some? then [Entry(Str("key"), Jsonify(e.key.value))] else [])
         + [Entry(Str("kind"), Str(KindName(e.kind)))]
         + (if e.msg.Some? then [Entry(Str("msg"), Jsonify(e.msg.value))] else []))
  }

  /** A hash whose keys are symbols with distinct names and whose values are
      scalars: the shape of the inputs and outputs commands log. */
  predicate SymbolHash(msg: Value) {
    && msg.Hash?
    && (forall i :: 0 <= i < |msg.entries| ==> msg.entries[i].key.Sym? && Scalar(msg.entries[i].val))
    && (forall i, j :: 0 <= i < j < |msg.entries| ==> msg.entries[i].key != msg.entries[j].key)
  }

  /** The round trip stringifies each key of a hash and keeps its place. */
  lemma JsonifyEntry(es: seq<Entry>, n: nat)
    requires n < |es|
    ensures Jsonify(Hash(es)).Hash? && |Jsonify(Hash(es)).entries| == |es|
    ensures Jsonify(Hash(es)).entries[n] == Entry(Str(Show(es[n].key)), Jsonify(es[n].val))
  {
  }

  /** After the round trip a symbol hash is found entry by entry under the
      string form of its keys. */
  lemma SymbolHashRoundTrip(msg: Value)
    requires SymbolHash(msg)
    ensures Jsonify(msg).Hash?
    ensures forall n :: 0 <= n < |msg.entries| ==> EntryStored(Jsonify(msg).entries, msg.entries[n])
  {
    var es := msg.entries;
    var js := Jsonify(msg).entries;
    assert |js| == |es|;
    forall n | 0 <= n < |es|
      ensures EntryStored(js, es[n])
    {
      var k := Str(es[n].key.name);
      JsonifyEntry(es, n);
      assert Jsonify(es[n].val) == es[n].val;
      assert js[n] == Entry(k, es[n].val);
      forall j | 0 <= j < n
        ensures js[j].key != k
      {
        JsonifyEntry(es, j);
        assert js[j].key == Str(es[j].key.name);
        assert es[j].key != es[n].key;
      }
      assert IndexOf(js, k) == Some(n);
      EqualReflexive(es[n].val);
    }
  }

  /** The payload of an entry holds `sequence`, `cmd` and `depth` first. */
  lemma EntryPayloadHead(e: LogEntry)
    ensures var es := EntryPayload(e).entries;
      && Lookup(es, Str("sequence")) == Str(e.sequence)
      && Lookup(es, Str("cmd")) == Str(e.cmd)
      && Lookup(es, Str("depth")) == Int(e.depth)
  {
    var es := EntryPayload(e).entries;
    assert es[0] == Entry(Str("sequence"), Str(e.sequence));
    assert es[1] == Entry(Str("cmd"), Str(e.cmd));
    assert es[2] == Entry(Str("depth"), Int(e.depth));
    assert IndexOf(es, Str("sequence")) == Some(0);
    assert IndexOf(es, Str("cmd")) == Some(1);
    assert IndexOf(es, Str("depth")) == Some(2);
  }

  /** The payload of an entry holds its slot key exactly when it has one,
      right after the fixed fields. */
  lemma EntryPayloadKey(e: LogEntry)
    ensures Lookup(EntryPayload(e).entries, Str("key")) == (if e.key.Some? then Jsonify(e.key.value) else Nil)
  {
    var es := EntryPayload(e).entries;
    var ks := if e.key.Some? then 1 else 0;
    assert |es| == 4 + ks + (if e.msg.Some? then 1 else 0);
    assert es[0].key == Str("sequence") && es[1].key == Str("cmd") && es[2].key == Str("depth");
    assert es[3 + ks].key == Str("kind");
    if e.key.Some? {
      assert es[3] == Entry(Str("key"), Jsonify(e.key.value));
      assert IndexOf(es, Str("key")) == Some(3);
    } else {
      assert e.msg.Some? ==> es[4].key == Str("msg");
      assert IndexOf(es, Str("key")) == None;
    }
  }

  /** The payload of an entry holds its kind's name, and its message exactly
      when it has one. */
  lemma EntryPayloadKindAndMsg(e: LogEntry)
    ensures var es := EntryPayload(e).entries;
      && Lookup(es, Str("kind")) == Str(KindName(e.kind))
      && Lookup(es, Str("msg")) == (if e.msg.Some? then Jsonify(e.msg.value) else Nil)
  {
    var es := EntryPayload(e).entries;
    var ks := if e.key.Some? then 1 else 0;
    assert |es| == 4 + ks + (if e.msg.Some? then 1 else 0);
    assert es[0].key == Str("sequence") && es[1].key == Str("cmd") && es[2].key == Str("depth");
    assert e.key.Some? ==> es[3].key == Str("key");
    assert es[3 + ks] == Entry(Str("kind"), Str(KindName(e.kind)));
    assert IndexOf(es, Str("kind")) == Some(3 + ks);
    if e.msg.Some? {
      assert es[4 + ks] == Entry(Str("msg"), Jsonify(e.msg.value));
      assert IndexOf(es, Str("msg")) == Some(4 + ks);
    } else {
      assert IndexOf(es, Str("msg")) == None;
    }
  }

  /** The payload of an entry holds each field under its name. */
  lemma EntryPayloadFields(e: LogEntry)
    ensures var es := EntryPayload(e).entries;
      && Lookup(es, Str("sequence")) == Str(e.sequence)
      && Lookup(es, Str("cmd")) == Str(e.cmd)
      && Lookup(es, Str("depth")) == Int(e.depth)
      && Lookup(es, Str("kind")) == Str(KindName(e.kind))
      && Lookup(es, Str("key")) == (if e.key.Some? then Jsonify(e.key.value) else Nil)
      && Lookup(es, Str("msg")) == (if e.msg.Some? then Jsonify(e.msg.value) else Nil)
  {
    EntryPayloadHead(e);
    EntryPayloadKey(e);
    EntryPayloadKindAndMsg(e);
  }

  /** What the reader makes of a logged entry: the same sequence, command
      and depth; `root?` exactly at depth 0; `kind?` true for the entry's
      kind and no other; `command?` true for the command's class; the slot
      key and message present exactly when the entry had them. */
  lemma EntryReadsBack(line: string, e: LogEntry)
    ensures var m := Populate(line, EntryPayload(e));
      && m.sequence == Str(e.sequence) && m.cmd == Str(e.cmd) && m.depth == Int(e.depth)
      && (IsRoot(m) <==> e.depth == 0)
      && (forall k: Kind :: IsKind(m, Sym(KindName(k))) <==> k == e.kind)
      && IsCommand(m, Cls(e.cmd))
      && (e.key.Some? ==> m.key == Jsonify(e.key.value))
      && (e.key.None? ==> m.key == Nil)
      && (e.msg.Some? ==> m.msg == Jsonify(e.msg.value))
      && (e.msg.None? ==> m.msg == Nil)
  {
    EntryPayloadFields(e);
    KindReadsBack(Populate(line, EntryPayload(e)), e.kind);
  }

  /** A message whose kind field holds a kind's name answers `kind?` for that
      kind only. */
  lemma KindReadsBack(m: LogMessage, kind: Kind)
    requires m.kind == Str(KindName(kind))
    ensures forall k: Kind :: IsKind(m, Sym(KindName(k))) <==> k == kind
  {
    forall k: Kind
      ensures IsKind(m, Sym(KindName(k))) <==> k == kind
    {
      if KindName(k) == KindName(kind) {
        KindNameInjective(k, kind);
      }
    }
  }

  /** A logged message reads back: a string matches itself, and a symbol
      hash matches through `match_message?`'s key stringification. */
  lemma MessageReadsBack(line: string, e: LogEntry)
    requires e.msg.Some?
    requires e.msg.value.Str? || SymbolHash(e.msg.value)
    ensures var m := Populate(line, EntryPayload(e));
      MatchesMessage(m, e.msg.value) == Success(true)
  {
    EntryReadsBack(line, e);
    var m := Populate(line, EntryPayload(e));
    var msg := e.msg.value;
    if msg.Hash? {
      SymbolHashRoundTrip(msg);
      if |msg.entries| > 0 {
        MatchesMessageHash(m, msg);
      }
    }
  }

  /** Reading with the sequence an entry was logged under keeps it. */
  lemma OwnSequenceSelected(e: LogEntry)
    ensures Selected(Str(e.sequence), EntryPayload(e).entries)
  {
    EntryPayloadFields(e);
  }
}
