/** Conversion rules: `CcPlan::of` of src/write.rs on the way into a file, `CcBlock::parse` of src/blocks/conversion.rs
    and `build_conversion_at_depth` of src/file.rs on the way out. */
module Conversions {
  import opened Bytes
  import opened Options
  import opened WriterModel
  import Scramble

  type File = seq<byte>

  /** A rule; numbers are f64 bit patterns. `Table` is the one with interpolation or the one without; `OtherKind` is any
      rule of the types 6 and 8 to 11. */
  datatype Conversion =
    | Identity
    | Linear(offset: nat, factor: nat)
    | Rational(coefficients: seq<nat>)
    | Algebraic(formula: Text)
    | Table(interpolated: bool, keys: seq<nat>, values: seq<nat>)
    | ValueToText(keys: seq<nat>, entries: seq<Entry>, default: Option<Entry>)
    | OtherKind(code: byte)
    | Unsupported(code: byte)

  datatype Entry = Label(text: Text) | Nested(conversion: Conversion)

  // ---------------------------------------------------------------- `CcPlan::of`

  datatype PlanError = BadTable | KeysAndEntriesDiffer | NestedEntry | NestedDefault | NotExpressible

  const F64_ONE: nat := 0x3FF0_0000_0000_0000
  const F64_MINUS_ZERO: nat := 0x8000_0000_0000_0000

  /** Offset zero, of either sign, and factor one. */
  predicate IsIdentity(c: Conversion) {
    c.Identity? || (c.Linear? && (c.offset == 0 || c.offset == F64_MINUS_ZERO) && c.factor == F64_ONE)
  }

  function KeysAndValues(keys: seq<nat>, values: seq<nat>): (s: seq<nat>)
    requires |keys| == |values|
    ensures |s| == 2 * |keys|
  {
    seq(2 * |keys|, i requires 0 <= i < 2 * |keys| => if i % 2 == 0 then keys[i / 2] else values[i / 2])
  }

  predicate AllLabels(entries: seq<Entry>) {
    forall i :: 0 <= i < |entries| ==> entries[i].Label?
  }

  function Refs(entries: seq<Entry>): (refs: seq<Option<Text>>)
    requires AllLabels(entries)
    ensures |refs| == |entries|
  {
    seq(|entries|, i requires 0 <= i < |entries| => Some(entries[i].text))
  }

  function DefaultRef(default: Option<Entry>): Option<Text>
    requires default.Some? ==> default.value.Label?
  {
    match default
    case None => None
    case Some(e) => Some(e.text)
  }

  function PlanOf(c: Conversion): Result<Option<CcPlan>, PlanError> {
    match c
    case Identity => Ok(None)
    case Linear(offset, factor) => Ok(if IsIdentity(c) then None else Some(CcPlan(1, [offset, factor], [])))
    case Rational(coefficients) => Ok(Some(CcPlan(2, coefficients, [])))
    case Algebraic(formula) => Ok(Some(CcPlan(3, [], [Some(formula)])))
    case Table(interpolated, keys, values) =>
      if keys == [] || |keys| != |values| then Err(BadTable)
      else Ok(Some(CcPlan(if interpolated then 4 else 5, KeysAndValues(keys, values), [])))
    case ValueToText(keys, entries, default) =>
      if |keys| != |entries| then Err(KeysAndEntriesDiffer)
      else if !AllLabels(entries) then Err(NestedEntry)
      else if default.Some? && default.value.Nested? then Err(NestedDefault)
      else Ok(Some(CcPlan(7, keys, Refs(entries) + [DefaultRef(default)])))
    case OtherKind(_) => Err(NotExpressible)
    case Unsupported(_) => Err(NotExpressible)
  }

  method PlanTable(interpolated: bool, keys: seq<nat>, values: seq<nat>) returns (r: Result<Option<CcPlan>, PlanError>)
    ensures r == PlanOf(Table(interpolated, keys, values))
  {
    if keys == [] || |keys| != |values| { return Err(BadTable); }
    var interleaved := [];
    for i := 0 to |keys|
      invariant |interleaved| == 2 * i
      invariant forall k :: 0 <= k < 2 * i ==> interleaved[k] == KeysAndValues(keys, values)[k]
    {
      interleaved := interleaved + [keys[i]];
      interleaved := interleaved + [values[i]];
    }
    assert interleaved == KeysAndValues(keys, values);
    r := Ok(Some(CcPlan(if interpolated then 4 else 5, interleaved, [])));
  }

  method PlanLabels(keys: seq<nat>, entries: seq<Entry>, default: Option<Entry>) returns (r: Result<Option<CcPlan>, PlanError>)
    ensures r == PlanOf(ValueToText(keys, entries, default))
  {
    if |keys| != |entries| { return Err(KeysAndEntriesDiffer); }
    var refs := [];
    for i := 0 to |entries|
      invariant |refs| == i
      invariant forall k :: 0 <= k < i ==> entries[k].Label? && refs[k] == Some(entries[k].text)
    {
      match entries[i] {
        case Nested(_) => return Err(NestedEntry);
        case Label(text) => refs := refs + [Some(text)];
      }
    }
    assert refs == Refs(entries);
    match default {
      case Some(Nested(_)) => return Err(NestedDefault);
      case Some(Label(text)) => refs := refs + [Some(text)];
      case None => refs := refs + [None];
    }
    r := Ok(Some(CcPlan(7, keys, refs)));
  }

  method PlanConversion(c: Conversion) returns (r: Result<Option<CcPlan>, PlanError>)
    ensures r == PlanOf(c)
  {
    match c
    case Identity => r := Ok(None);
    case Linear(offset, factor) =>
      r := Ok(if IsIdentity(c) then None else Some(CcPlan(1, [offset, factor], [])));
    case Rational(coefficients) => r := Ok(Some(CcPlan(2, coefficients, [])));
    case Algebraic(formula) => r := Ok(Some(CcPlan(3, [], [Some(formula)])));
    case Table(interpolated, keys, values) => r := PlanTable(interpolated, keys, values);
    case ValueToText(keys, entries, default) => r := PlanLabels(keys, entries, default);
    case OtherKind(_) => r := Err(NotExpressible);
    case Unsupported(_) => r := Err(NotExpressible);
  }

  // ---------------------------------------------------------------- text

  /** Bytes of the white-space character `s` begins with, in UTF-8, or none. */
  function WhiteFront(s: seq<byte>): (n: nat)
    ensures n <= |s|
  {
    if |s| >= 1 && (9 <= s[0] <= 13 || s[0] == 32) then 1
    else if |s| >= 2 && IsWhite2(s[0], s[1]) then 2
    else if |s| >= 3 && IsWhite3(s[0], s[1], s[2]) then 3
    else 0
  }

  /** Bytes of the white-space character `s` ends with. */
  function WhiteBack(s: seq<byte>): (n: nat)
    ensures n <= |s|
  {
    var k := |s|;
    if k >= 1 && (9 <= s[k - 1] <= 13 || s[k - 1] == 32) then 1
    else if k >= 2 && IsWhite2(s[k - 2], s[k - 1]) then 2
    else if k >= 3 && IsWhite3(s[k - 3], s[k - 2], s[k - 1]) then 3
    else 0
  }

  /** U+0085, U+00A0. */
  predicate IsWhite2(a: byte, b: byte) {
    a == 0xC2 && (b == 0x85 || b == 0xA0)
  }

  /** U+1680, U+2000 to U+200A, U+2028, U+2029, U+202F, U+205F, U+3000. */
  predicate IsWhite3(a: byte, b: byte, c: byte) {
    || (a == 0xE1 && b == 0x9A && c == 0x80)
    || (a == 0xE2 && b == 0x80 && (0x80 <= c <= 0x8A || c == 0xA8 || c == 0xA9 || c == 0xAF))
    || (a == 0xE2 && b == 0x81 && c == 0x9F)
    || (a == 0xE3 && b == 0x80 && c == 0x80)
  }

  /** `str::trim`. */
  function Trim(s: seq<byte>): (t: seq<byte>)
    ensures |t| <= |s|
    decreases |s|
  {
    if WhiteFront(s) > 0 then Trim(s[WhiteFront(s)..])
    else if WhiteBack(s) > 0 then Trim(s[..|s| - WhiteBack(s)])
    else s
  }

  /** What a reader makes of stored text: nothing behind a NUL, and no white space around it. */
  function Shown(stored: Text): Text {
    Trim(stored[..Scramble.TextEnd(stored)])
  }

  // ---------------------------------------------------------------- blocks out of a file

  datatype ReadError = Truncated | BadSize | WrongKind

  datatype Header = Header(kind: seq<byte>, length: nat, linkCount: nat)

  /** `parse_block_header`. */
  function ReadHeader(f: File, at: nat): (r: Result<Header, ReadError>)
    ensures r.Ok? ==> 24 + 8 * r.value.linkCount <= r.value.length && at + r.value.length <= |f|
  {
    if at + 24 > |f| then Err(Truncated)
    else
      var length, links := FromLe(f[at + 8..at + 16]), FromLe(f[at + 16..at + 24]);
      if length < 24 || 24 + 8 * links > length then Err(BadSize)
      else if at + length > |f| then Err(Truncated)
      else Ok(Header(f[at..at + 4], length, links))
  }

  const CC_MIN_SIZE: nat := 80

  function WordsAt(f: File, at: nat, n: nat): (words: seq<nat>)
    requires at + 8 * n <= |f|
    ensures |words| == n
  {
    seq(n, k requires 0 <= k < n => FromLe(f[at + 8 * k..at + 8 * k + 8]))
  }

  /** A conversion block as parsed; the links are the references only. */
  datatype CcRead = CcRead(ccType: byte, references: seq<nat>, refCount: nat, valCount: nat, values: seq<nat>)

  function ReadCc(f: File, at: nat): Result<CcRead, ReadError> {
    match ReadHeader(f, at)
    case Err(e) => Err(e)
    case Ok(h) =>
      if h.kind != Scramble.CC then Err(WrongKind)
      else if h.length < CC_MIN_SIZE then Err(BadSize)
      else if h.length < 24 + 8 * h.linkCount + 24 then Err(Truncated)
      else
        var d := at + 24 + 8 * h.linkCount;
        var valCount := FromLe(f[d + 6..d + 8]);
        if d + 24 + 8 * valCount > at + h.length then Err(Truncated)
        else Ok(CcRead(f[d], WordsAt(f, at + 56, if h.linkCount < 4 then 0 else h.linkCount - 4),
                       FromLe(f[d + 4..d + 6]), valCount, WordsAt(f, d + 24, valCount)))
  }

  method ReadWords(f: File, at: nat, n: nat, end: nat) returns (r: Result<seq<nat>, ReadError>)
    requires at <= end <= |f|
    ensures r == if at + 8 * n <= end then Ok(WordsAt(f, at, n)) else Err(Truncated)
  {
    var words := [];
    for k := 0 to n
      invariant at + 8 * k <= end
      invariant |words| == k && forall j :: 0 <= j < k ==> words[j] == FromLe(f[at + 8 * j..at + 8 * j + 8])
    {
      if at + 8 * k + 8 > end { return Err(Truncated); }
      words := words + [FromLe(f[at + 8 * k..at + 8 * k + 8])];
    }
    assert words == WordsAt(f, at, n);
    r := Ok(words);
  }

  /** `CcBlock::parse`. */
  method ParseCc(f: File, at: nat) returns (r: Result<CcRead, ReadError>)
    ensures r == ReadCc(f, at)
  {
    hide FromLe, ReadHeader;
    var h := ReadHeader(f, at);
    if h.Err? { return Err(h.error); }
    var header := h.value;
    if header.kind != Scramble.CC { return Err(WrongKind); }
    if header.length < CC_MIN_SIZE { return Err(BadSize); }
    var references := ReadWords(f, at + 56, if header.linkCount < 4 then 0 else header.linkCount - 4, at + header.length);
    var d := at + 24 + 8 * header.linkCount;
    if header.length < 24 + 8 * header.linkCount + 24 { return Err(Truncated); }
    var refCount, valCount := FromLe(f[d + 4..d + 6]), FromLe(f[d + 6..d + 8]);
    var values := ReadWords(f, d + 24, valCount, at + header.length);
    if values.Err? { return Err(values.error); }
    r := Ok(CcRead(f[d], references.value, refCount, valCount, values.value));
  }

  /** What the reader calls on that is not part of this model: whether a formula parses, and the comment in XML. */
  datatype Outside = Outside(parses: Text -> bool, comment: Text -> Text)

  /** `read_text`. */
  function ReadText(f: File, o: Outside, link: nat): Result<Text, ReadError> {
    if link == 0 then Ok([])
    else match ReadHeader(f, link)
      case Err(e) => Err(e)
      case Ok(h) =>
        var d := f[link + 24..link + h.length];
        if h.kind == Scramble.TX then Ok(Shown(d))
        else if h.kind == Scramble.MD then Ok(o.comment(d[..Scramble.TextEnd(d)]))
        else Err(WrongKind)
  }

  // ---------------------------------------------------------------- `build_conversion_at_depth`

  const MAX_DEPTH: nat := 4

  /** Reference `i`, zero where there is none. */
  function Reference(cc: CcRead, i: nat): nat {
    if i < |cc.references| then cc.references[i] else 0
  }

  /** `table_entry`. */
  function EntryAt(f: File, o: Outside, link: nat, depth: nat): Result<Option<Entry>, ReadError>
    requires depth <= MAX_DEPTH
    decreases MAX_DEPTH - depth, 0, 0
  {
    if link == 0 || link + 4 > |f| then Ok(None)
    else if f[link..link + 4] == Scramble.CC then
      if depth >= MAX_DEPTH then Ok(None)
      else match ReadCc(f, link)
        case Err(e) => Err(e)
        case Ok(cc) =>
          match BuildAt(f, o, cc, depth + 1)
          case Err(e) => Err(e)
          case Ok(c) => Ok(Some(Nested(c)))
    else if f[link..link + 4] == Scramble.TX || f[link..link + 4] == Scramble.MD then
      match ReadText(f, o, link)
      case Err(e) => Err(e)
      case Ok(t) => Ok(Some(Label(t)))
    else Ok(None)
  }

  /** The entries of the first `n` keys: an entry that is not there is an empty label. */
  function EntriesAt(f: File, o: Outside, cc: CcRead, depth: nat, n: nat): Result<seq<Entry>, ReadError>
    requires depth <= MAX_DEPTH
    decreases MAX_DEPTH - depth, 1, n
  {
    if n == 0 then Ok([])
    else match EntriesAt(f, o, cc, depth, n - 1)
      case Err(e) => Err(e)
      case Ok(before) =>
        match EntryAt(f, o, Reference(cc, n - 1), depth)
        case Err(e) => Err(e)
        case Ok(entry) => Ok(before + [if entry.Some? then entry.value else Label([])])
  }

  /** Every other number, from the first or from the second. */
  function Alternate(v: seq<nat>, odd: nat): (s: seq<nat>)
    requires odd <= 1
    ensures |s| == |v| / 2
  {
    seq(|v| / 2, i requires 0 <= i < |v| / 2 => v[2 * i + odd])
  }

  function BuildAt(f: File, o: Outside, cc: CcRead, depth: nat): Result<Conversion, ReadError>
    requires depth <= MAX_DEPTH
    decreases MAX_DEPTH - depth, 2, 0
  {
    var v, code := cc.values, cc.ccType;
    if code == 0 then Ok(Identity)
    else if code == 1 then Ok(if |v| < 2 then Unsupported(code) else Linear(v[0], v[1]))
    else if code == 2 then Ok(if |v| < 6 then Unsupported(code) else Rational(v[..6]))
    else if code == 3 then
      if Reference(cc, 0) == 0 then Ok(Unsupported(code))
      else match ReadText(f, o, Reference(cc, 0))
        case Err(e) => Err(e)
        case Ok(t) => Ok(if o.parses(t) then Algebraic(t) else Unsupported(code))
    else if code == 4 || code == 5 then
      Ok(if |v| / 2 == 0 then Unsupported(code) else Table(code == 4, Alternate(v, 0), Alternate(v, 1)))
    else if code == 7 then
      match EntriesAt(f, o, cc, depth, |v|)
      case Err(e) => Err(e)
      case Ok(entries) =>
        match EntryAt(f, o, Reference(cc, |v|), depth)
        case Err(e) => Err(e)
        case Ok(default) => Ok(ValueToText(v, entries, default))
    else Ok(if code <= 11 then OtherKind(code) else Unsupported(code))
  }

  method ResolveEntry(f: File, o: Outside, link: nat, depth: nat) returns (r: Result<Option<Entry>, ReadError>)
    requires depth <= MAX_DEPTH
    ensures r == EntryAt(f, o, link, depth)
    decreases MAX_DEPTH - depth, 0
  {
    if link == 0 || link + 4 > |f| { return Ok(None); }
    var id := f[link..link + 4];
    if id == Scramble.CC {
      if depth >= MAX_DEPTH { return Ok(None); }
      var cc := ParseCc(f, link);
      if cc.Err? { return Err(cc.error); }
      var c := BuildConversion(f, o, cc.value, depth + 1);
      r := if c.Err? then Err(c.error) else Ok(Some(Nested(c.value)));
    } else if id == Scramble.TX || id == Scramble.MD {
      var t := ReadText(f, o, link);
      r := if t.Err? then Err(t.error) else Ok(Some(Label(t.value)));
    } else {
      r := Ok(None);
    }
  }

  method BuildConversion(f: File, o: Outside, cc: CcRead, depth: nat) returns (r: Result<Conversion, ReadError>)
    requires depth <= MAX_DEPTH
    ensures r == BuildAt(f, o, cc, depth)
    decreases MAX_DEPTH - depth, 1
  {
    hide EntryAt, ReadText, FromLe;
    if cc.ccType != 7 { return BuildAt(f, o, cc, depth); }
    var n := |cc.values|;
    var entries := [];
    for i := 0 to n
      invariant EntriesAt(f, o, cc, depth, i) == Ok(entries)
    {
      var entry := ResolveEntry(f, o, Reference(cc, i), depth);
      if entry.Err? {
        ErrorStays(f, o, cc, depth, i + 1, n);
        return Err(entry.error);
      }
      entries := entries + [if entry.value.Some? then entry.value.value else Label([])];
    }
    var default := ResolveEntry(f, o, Reference(cc, n), depth);
    r := if default.Err? then Err(default.error) else Ok(ValueToText(cc.values, entries, default.value));
  }

  lemma {:induction false} ErrorStays(f: File, o: Outside, cc: CcRead, depth: nat, i: nat, n: nat)
    requires depth <= MAX_DEPTH && i <= n && EntriesAt(f, o, cc, depth, i).Err?
    ensures EntriesAt(f, o, cc, depth, n) == EntriesAt(f, o, cc, depth, i)
    decreases n
  {
    hide EntryAt;
    if i < n { ErrorStays(f, o, cc, depth, i, n - 1); }
  }

  /** The conversion a channel's link leads to; no link is no conversion. */
  function ReadConversion(f: File, o: Outside, link: nat): Result<Conversion, ReadError> {
    if link == 0 then Ok(Identity)
    else match ReadCc(f, link)
      case Err(e) => Err(e)
      case Ok(cc) => BuildAt(f, o, cc, 0)
  }

  method ConversionOf(f: File, o: Outside, link: nat) returns (r: Result<Conversion, ReadError>)
    ensures r == ReadConversion(f, o, link)
  {
    if link == 0 { return Ok(Identity); }
    var cc := ParseCc(f, link);
    if cc.Err? { return Err(cc.error); }
    r := BuildConversion(f, o, cc.value, 0);
  }
}
