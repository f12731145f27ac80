/** Conversions inside conversions: an entry of a value-to-text block may be a conversion of its own, or a comment in XML. The
    writer emits neither; the reader builds both, down to four levels. */
module NestedConversions {
  import opened Bytes
  import opened Options
  import opened WriterModel
  import opened Conversions
  import Scramble

  // ---------------------------------------------------------------- what a file says

  /** A link leads to a block of one of the kinds an entry can be: ##TX, ##MD or ##CC. */
  ghost predicate LeadsToEntry(f: File, link: nat) {
    link != 0 && link + 4 <= |f|
    && (f[link..link + 4] == [35, 35, 84, 88] || f[link..link + 4] == [35, 35, 77, 68] || f[link..link + 4] == [35, 35, 67, 67])
  }

  /** A text block holds plain text, or a comment in XML. */
  ghost predicate TextSays(f: File, o: Outside, link: nat, text: Text) {
    match ReadHeader(f, link)
    case Err(_) => false
    case Ok(h) =>
      var data := f[link + 24..link + h.length];
      || (f[link..link + 4] == [35, 35, 84, 88] && text == Shown(data))
      || (f[link..link + 4] == [35, 35, 77, 68] && text == o.comment(data[..Scramble.TextEnd(data)]))
  }

  /** A link leads to a label or to the block of another conversion; one that leads to neither stands for an empty label. */
  ghost predicate EntrySays(f: File, o: Outside, link: nat, e: Entry)
    decreases e
  {
    match e
    case Label(text) => if LeadsToEntry(f, link) then TextSays(f, o, link, text) else text == []
    case Nested(c) => LeadsToEntry(f, link) && f[link..link + 4] == [35, 35, 67, 67] && Says(f, o, link, c)
  }

  ghost predicate DefaultSays(f: File, o: Outside, link: nat, default: Option<Entry>)
    decreases default
  {
    match default
    case None => !LeadsToEntry(f, link)
    case Some(e) => LeadsToEntry(f, link) && EntrySays(f, o, link, e)
  }

  /** The block at `at` describes `c`, with everything inside it. */
  ghost predicate Says(f: File, o: Outside, at: nat, c: Conversion)
    decreases c
  {
    ReadCc(f, at).Ok? &&
    var cc := ReadCc(f, at).value;
    match c
    case ValueToText(keys, entries, default) =>
      && cc.ccType == 7 && cc.values == keys && |entries| == |keys|
      && (forall i :: 0 <= i < |keys| ==> EntrySays(f, o, Reference(cc, i), entries[i]))
      && DefaultSays(f, o, Reference(cc, |keys|), default)
    case _ => cc.ccType != 7 && BuildAt(f, o, cc, 0) == Ok(c)
  }

  // ---------------------------------------------------------------- what is left of it

  function CappedEntry(e: Entry, levels: nat): Entry
    decreases e
  {
    match e
    case Label(_) => e
    case Nested(c) => if levels == 0 then Label([]) else Nested(Capped(c, levels - 1))
  }

  /** A conversion with at most `levels` of nesting: what lies deeper is an empty label, and no default. */
  function Capped(c: Conversion, levels: nat): Conversion
    decreases c
  {
    match c
    case ValueToText(keys, entries, default) =>
      ValueToText(keys, seq(|entries|, i requires 0 <= i < |entries| => CappedEntry(entries[i], levels)),
                  match default
                  case None => None
                  case Some(e) => if e.Nested? && levels == 0 then None else Some(CappedEntry(e, levels)))
    case _ => c
  }

  ghost predicate EntryWithin(e: Entry, levels: nat)
    decreases e
  {
    e.Nested? ==> levels > 0 && Within(e.conversion, levels - 1)
  }

  /** Nothing is nested deeper than `levels`. */
  ghost predicate Within(c: Conversion, levels: nat)
    decreases c
  {
    match c
    case ValueToText(_, entries, default) =>
      && (forall i :: 0 <= i < |entries| ==> EntryWithin(entries[i], levels))
      && (default.Some? ==> EntryWithin(default.value, levels))
    case _ => true
  }

  lemma {:induction false} EntryKeptExactly(e: Entry, levels: nat)
    ensures CappedEntry(e, levels) == e <==> EntryWithin(e, levels)
    decreases e
  {
    if e.Nested? && levels > 0 { KeptExactly(e.conversion, levels - 1); }
  }

  /** Nothing is cut off exactly where nothing is nested too deep. */
  lemma {:induction false} KeptExactly(c: Conversion, levels: nat)
    ensures Capped(c, levels) == c <==> Within(c, levels)
    decreases c
  {
    hide EntryWithin, CappedEntry;
    match c
    case ValueToText(keys, entries, default) =>
      forall i | 0 <= i < |entries| ensures CappedEntry(entries[i], levels) == entries[i] <==> EntryWithin(entries[i], levels) {
        EntryKeptExactly(entries[i], levels);
      }
      if default.Some? {
        EntryKeptExactly(default.value, levels);
        DefaultKept(default.value, levels);
      }
      var capped := Capped(c, levels);
      if capped == c {
        forall i | 0 <= i < |entries| ensures EntryWithin(entries[i], levels) {
          assert capped.entries[i] == entries[i];
        }
      } else if forall i :: 0 <= i < |entries| ==> EntryWithin(entries[i], levels) {
        assert capped.entries == entries;
      }
    case _ =>
  }

  lemma {:induction false} DefaultKept(e: Entry, levels: nat)
    ensures e.Nested? && levels == 0 ==> !EntryWithin(e, levels)
  {
  }

  // ---------------------------------------------------------------- what is built

  lemma {:induction false} LabelIsBuilt(f: File, o: Outside, link: nat, text: Text, depth: nat)
    requires depth <= MAX_DEPTH && LeadsToEntry(f, link) && TextSays(f, o, link, text)
    ensures EntryAt(f, o, link, depth) == Ok(Some(Label(text)))
  {
    hide Shown, Scramble.TextEnd, FromLe;
  }

  lemma {:induction false} NothingIsBuilt(f: File, o: Outside, link: nat, depth: nat)
    requires depth <= MAX_DEPTH && !LeadsToEntry(f, link)
    ensures EntryAt(f, o, link, depth) == Ok(None)
  {
  }

  /** What an entry is built into `depth` conversions down: nothing, if it is a conversion below the fourth. */
  lemma {:induction false} EntryIsBuilt(f: File, o: Outside, link: nat, e: Entry, depth: nat)
    requires depth <= 4 && LeadsToEntry(f, link) && EntrySays(f, o, link, e)
    ensures EntryAt(f, o, link, depth) == Ok(if e.Nested? && depth == 4 then None else Some(CappedEntry(e, 4 - depth)))
    decreases e
  {
    hide TextSays, Says, BuildAt;
    match e
    case Label(text) => LabelIsBuilt(f, o, link, text, depth);
    case Nested(c) => if depth < 4 { BlockIsBuilt(f, o, link, c, depth + 1); } BlockIsParsed(f, o, link, c);
  }

  lemma {:induction false} BlockIsParsed(f: File, o: Outside, at: nat, c: Conversion)
    requires Says(f, o, at, c)
    ensures ReadCc(f, at).Ok?
  {
  }

  /** What the entries of the first `n` keys are built into. */
  lemma {:induction false} EntriesAreBuilt(f: File, o: Outside, cc: CcRead, entries: seq<Entry>, depth: nat, n: nat)
    requires depth <= 4 && n <= |entries|
    requires forall i :: 0 <= i < |entries| ==> EntrySays(f, o, Reference(cc, i), entries[i])
    ensures EntriesAt(f, o, cc, depth, n) == Ok(seq(n, i requires 0 <= i < n => CappedEntry(entries[i], 4 - depth)))
    decreases entries, n
  {
    hide EntryAt, LeadsToEntry, TextSays;
    var cut := seq(n, i requires 0 <= i < n => CappedEntry(entries[i], 4 - depth));
    if n == 0 {
      assert cut == [];
    } else {
      EntriesAreBuilt(f, o, cc, entries, depth, n - 1);
      var link, e := Reference(cc, n - 1), entries[n - 1];
      if LeadsToEntry(f, link) {
        EntryIsBuilt(f, o, link, e, depth);
      } else {
        NothingIsBuilt(f, o, link, depth);
      }
      assert cut == seq(n - 1, i requires 0 <= i < n - 1 => CappedEntry(entries[i], 4 - depth)) + [CappedEntry(e, 4 - depth)];
    }
  }

  lemma {:induction false} DefaultIsBuilt(f: File, o: Outside, link: nat, default: Option<Entry>, depth: nat)
    requires depth <= 4 && DefaultSays(f, o, link, default)
    ensures EntryAt(f, o, link, depth) == Ok(match default
                                             case None => None
                                             case Some(e) => if e.Nested? && depth == 4 then None else Some(CappedEntry(e, 4 - depth)))
    decreases default
  {
    hide EntryAt, LeadsToEntry, EntrySays, CappedEntry;
    match default
    case None => NothingIsBuilt(f, o, link, depth);
    case Some(e) => EntryIsBuilt(f, o, link, e, depth);
  }

  /** What a block is built into `depth` conversions down. */
  lemma {:induction false} BlockIsBuilt(f: File, o: Outside, at: nat, c: Conversion, depth: nat)
    requires depth <= 4 && Says(f, o, at, c)
    ensures BuildAt(f, o, ReadCc(f, at).value, depth) == Ok(Capped(c, 4 - depth))
    decreases c
  {
    hide ReadCc, EntryAt, EntriesAt, EntrySays, DefaultSays, CappedEntry;
    var cc := ReadCc(f, at).value;
    match c
    case ValueToText(keys, entries, default) =>
      EntriesAreBuilt(f, o, cc, entries, depth, |keys|);
      DefaultIsBuilt(f, o, Reference(cc, |keys|), default, depth);
    case _ =>
  }

  /** A conversion that a file describes is read back as far as four levels down, and so is itself exactly when nothing in it is
      nested deeper. */
  lemma {:induction false} NestedReadsBackExactly(f: File, o: Outside, at: nat, c: Conversion)
    requires at != 0 && Says(f, o, at, c)
    ensures ReadConversion(f, o, at) == Ok(Capped(c, 4))
    ensures ReadConversion(f, o, at) == Ok(c) <==> Within(c, 4)
  {
    hide Capped, Within, BuildAt;
    BlockIsParsed(f, o, at, c);
    BlockIsBuilt(f, o, at, c, 0);
    KeptExactly(c, 4);
  }
}
