// The hash-chained audit log: what the verifier accepts, what an accepted log
// pins down, and what the writer keeps.
module Audit {
  import opened Wrappers
  import opened PyText
  import Encoding

  datatype Json =
    | Null
    | Str(text: string)
    | Num(number: int)
    | Nested(text: string)

  type Fields = map<string, Json>

  // One line of the file, decoded. A blank line is plain if it holds nothing but
  // the white space that JSON knows; vertical tabs and form feeds are not.
  datatype Line =
    | Blank(plain: bool)
    | Undecodable
    | NotAnObject
    | Record(fields: Fields)

  // SHA-256 of the canonical form; a function of the field map alone.
  type Hash = Fields -> string

  const ZEROS := "0000000000000000"

  const GENESIS := ZEROS + ZEROS + ZEROS + ZEROS

  // Sixty-four characters, all of them zeros.
  lemma GenesisIsZeros()
    ensures |GENESIS| == 64 && multiset(GENESIS)['0'] == 64
  {
  }

  function Get(fields: Fields, key: string): Option<Json> {
    if key in fields then Some(fields[key]) else None
  }

  // A record without its own hash: what gets hashed.
  function Body(fields: Fields): Fields {
    fields - {"hash"}
  }

  // What the caller logged: the record without the two chain fields.
  function Payload(fields: Fields): Fields {
    fields - {"hash", "prev_hash"}
  }

  // ---- The verifier ----

  datatype Verdict =
    | Intact
    | Unreadable(line: nat)
    | BrokenLink(line: nat)
    | BrokenHash(line: nat)

  predicate LinksTo(fields: Fields, prev: string) {
    Get(fields, "prev_hash") == Some(Str(prev))
  }

  predicate HashMatches(h: Hash, fields: Fields) {
    Get(fields, "hash") == Some(Str(h(Body(fields))))
  }

  function VerifyFrom(h: Hash, lines: seq<Line>, prev: string, at: nat): Verdict
    decreases |lines|
  {
    if lines == [] then Intact
    else
      match lines[0]
      case Blank(_) => VerifyFrom(h, lines[1..], prev, at + 1)
      case Undecodable => Unreadable(at)
      case NotAnObject => Unreadable(at)
      case Record(fields) =>
        if !LinksTo(fields, prev) then BrokenLink(at)
        else if !HashMatches(h, fields) then BrokenHash(at)
        else VerifyFrom(h, lines[1..], h(Body(fields)), at + 1)
  }

  function Verify(h: Hash, lines: seq<Line>): Verdict {
    VerifyFrom(h, lines, GENESIS, 1)
  }

  // An open file ends in a line without its newline.
  class LogFile {
    var lines: seq<Line>
    var open: bool

    constructor (lines: seq<Line>, open: bool)
      ensures this.lines == lines && this.open == open
    {
      this.lines, this.open := lines, open;
    }
  }

  // The last line as it reads once a record has been written behind it: only
  // plain white space leaves the record readable.
  function Joined(line: Line, fields: Fields): Line {
    if line == Blank(true) then Record(fields) else Undecodable
  }

  // The lines once a record with its newline has been appended.
  function AppendRecord(lines: seq<Line>, open: bool, fields: Fields): seq<Line> {
    if open && lines != []
    then lines[..|lines| - 1] + [Joined(lines[|lines| - 1], fields)]
    else lines + [Record(fields)]
  }

  // The next record to be appended would share its line with something else.
  predicate Spoils(lines: seq<Line>, open: bool) {
    open && lines != [] && lines[|lines| - 1] != Blank(true)
  }

  method VerifyChain(h: Hash, file: LogFile) returns (verdict: Verdict)
    ensures verdict == Verify(h, file.lines)
  {
    var prevHash := GENESIS;
    var lines := file.lines;
    for i := 0 to |lines|
      invariant Verify(h, lines) == VerifyFrom(h, lines[i..], prevHash, i + 1)
    {
      assert lines[i..][0] == lines[i] && lines[i..][1..] == lines[i + 1..];
      match lines[i] {
        case Blank(_) =>
        case Undecodable =>
          return Unreadable(i + 1);
        case NotAnObject =>
          return Unreadable(i + 1);
        case Record(fields) =>
          var expectedPrev := Get(fields, "prev_hash");
          var storedHash := Get(fields, "hash");
          if expectedPrev != Some(Str(prevHash)) {
            return BrokenLink(i + 1);
          }
          var recomputed := h(fields - {"hash"});
          if storedHash != Some(Str(recomputed)) {
            return BrokenHash(i + 1);
          }
          prevHash := recomputed;
      }
    }
    return Intact;
  }

  // ---- What acceptance means ----

  function Records(lines: seq<Line>): seq<Fields> {
    if lines == [] then []
    else if lines[0].Record? then [lines[0].fields] + Records(lines[1..])
    else Records(lines[1..])
  }

  predicate Readable(lines: seq<Line>) {
    forall line <- lines :: line.Blank? || line.Record?
  }

  // The hash that a chain of records ends in.
  function EndHash(h: Hash, rs: seq<Fields>, start: string): string {
    if rs == [] then start else h(Body(rs[|rs| - 1]))
  }

  // Every record carries its own hash and the hash its predecessors end in.
  predicate Chained(h: Hash, rs: seq<Fields>, start: string) {
    rs == []
    || (var front, last := rs[..|rs| - 1], rs[|rs| - 1];
        HashMatches(h, last) && LinksTo(last, EndHash(h, front, start)) && Chained(h, front, start))
  }

  lemma {:induction false} ChainedFromFront(h: Hash, f: Fields, rs: seq<Fields>, start: string)
    ensures Chained(h, [f] + rs, start)
       <==> HashMatches(h, f) && LinksTo(f, start) && Chained(h, rs, h(Body(f)))
    decreases |rs|
  {
    var all := [f] + rs;
    if rs == [] {
      assert all[..0] == [];
    } else {
      var front := rs[..|rs| - 1];
      assert all[..|all| - 1] == [f] + front;
      ChainedFromFront(h, f, front, start);
    }
  }

  lemma ChainedAppend(h: Hash, rs: seq<Fields>, r: Fields, start: string)
    ensures Chained(h, rs + [r], start)
       <==> Chained(h, rs, start) && HashMatches(h, r) && LinksTo(r, EndHash(h, rs, start))
  {
    assert (rs + [r])[..|rs|] == rs;
  }

  lemma {:induction false} ChainedPrefix(h: Hash, a: seq<Fields>, b: seq<Fields>, start: string)
    requires Chained(h, a + b, start)
    ensures Chained(h, a, start)
    decreases |b|
  {
    if b == [] {
      assert a + b == a;
    } else {
      var front := b[..|b| - 1];
      assert (a + b)[..|a + b| - 1] == a + front;
      ChainedPrefix(h, a, front, start);
    }
  }

  // The verifier accepts exactly the readable files whose records are chained:
  // blank lines play no part.
  lemma {:induction false} IntactIffChained(h: Hash, lines: seq<Line>, start: string, at: nat)
    ensures VerifyFrom(h, lines, start, at).Intact? <==> Readable(lines) && Chained(h, Records(lines), start)
    decreases |lines|
  {
    if lines != [] {
      var line, rest := lines[0], lines[1..];
      assert Readable(lines) <==> (line.Blank? || line.Record?) && Readable(rest) by {
        assert lines == [line] + rest;
      }
      if line.Record? {
        IntactIffChained(h, rest, h(Body(line.fields)), at + 1);
        ChainedFromFront(h, line.fields, Records(rest), start);
      } else {
        IntactIffChained(h, rest, start, at + 1);
      }
    }
  }

  predicate IsIntact(h: Hash, lines: seq<Line>) {
    Verify(h, lines).Intact?
  }

  lemma {:induction false} RecordsConcat(a: seq<Line>, b: seq<Line>)
    ensures Records(a + b) == Records(a) + Records(b)
  {
    if a == [] {
      assert a + b == b;
    } else {
      assert (a + b)[1..] == a[1..] + b;
      RecordsConcat(a[1..], b);
    }
  }

  lemma PrefixIsIntact(h: Hash, a: seq<Line>, b: seq<Line>)
    requires IsIntact(h, a + b)
    ensures IsIntact(h, a)
  {
    IntactIffChained(h, a + b, GENESIS, 1);
    IntactIffChained(h, a, GENESIS, 1);
    RecordsConcat(a, b);
    ChainedPrefix(h, Records(a), Records(b), GENESIS);
    forall line <- a
      ensures line.Blank? || line.Record?
    {
      assert line in a + b;
    }
  }

  // A rejected file is rejected at the first line that spoils its prefix.
  lemma RejectionNamesTheFirstBadLine(h: Hash, lines: seq<Line>)
    requires !IsIntact(h, lines)
    ensures var n := Verify(h, lines).line;
            1 <= n <= |lines| && IsIntact(h, lines[..n - 1]) && !IsIntact(h, lines[..n])
  {
    RejectionFrom(h, lines, GENESIS, 1);
  }

  lemma {:induction false} RejectionFrom(h: Hash, lines: seq<Line>, prev: string, at: nat)
    requires !VerifyFrom(h, lines, prev, at).Intact?
    ensures var n := VerifyFrom(h, lines, prev, at).line - at;
            && 0 <= n < |lines|
            && VerifyFrom(h, lines[..n], prev, at).Intact?
            && !VerifyFrom(h, lines[..n + 1], prev, at).Intact?
    decreases |lines|
  {
    var n := VerifyFrom(h, lines, prev, at).line - at;
    if lines[0].Blank? {
      RejectionFrom(h, lines[1..], prev, at + 1);
      assert lines[..n][1..] == lines[1..][..n - 1] && lines[..n + 1][1..] == lines[1..][..n];
    } else if lines[0].Record? && LinksTo(lines[0].fields, prev) && HashMatches(h, lines[0].fields) {
      RejectionFrom(h, lines[1..], h(Body(lines[0].fields)), at + 1);
      assert lines[..n][1..] == lines[1..][..n - 1] && lines[..n + 1][1..] == lines[1..][..n];
    } else {
      assert n == 0;
      assert lines[..1] == [lines[0]] && lines[..0] == [];
    }
  }

  // ---- What the last hash pins down ----

  // No two of the given records collide, and none hashes to the genesis value.
  ghost predicate CollisionFree(h: Hash, rs: set<Fields>) {
    && (forall x <- rs, y <- rs :: h(Body(x)) == h(Body(y)) ==> Body(x) == Body(y))
    && (forall x <- rs :: h(Body(x)) != GENESIS)
  }

  function SetOf(rs: seq<Fields>): set<Fields> {
    set r | r in rs
  }

  lemma SameBody(h: Hash, x: Fields, y: Fields, all: set<Fields>)
    requires CollisionFree(h, all) && x in all
    ensures h(Body(x)) != GENESIS
    ensures y in all && h(Body(x)) == h(Body(y)) ==> Body(x) == Body(y)
  {
    hide Body;
  }

  lemma SameLast(h: Hash, a: seq<Fields>, b: seq<Fields>)
    requires a != [] && b != [] && Chained(h, a, GENESIS) && Chained(h, b, GENESIS)
    requires Body(a[|a| - 1]) == Body(b[|b| - 1])
    ensures a[|a| - 1] == b[|b| - 1]
    ensures EndHash(h, a[..|a| - 1], GENESIS) == EndHash(h, b[..|b| - 1], GENESIS)
  {
    var x, y := a[|a| - 1], b[|b| - 1];
    SameHashSameRecord(h, x, y);
    hide HashMatches, LinksTo, EndHash, Body;
  }

  predicate AllIn(rs: seq<Fields>, all: set<Fields>) {
    forall r <- rs :: r in all
  }

  lemma FrontIn(rs: seq<Fields>, all: set<Fields>)
    requires AllIn(rs, all) && rs != []
    ensures AllIn(rs[..|rs| - 1], all) && rs[|rs| - 1] in all
  {
  }

  lemma {:induction false} SameEndSameRecords(h: Hash, a: seq<Fields>, b: seq<Fields>, all: set<Fields>)
    requires Chained(h, a, GENESIS) && Chained(h, b, GENESIS)
    requires CollisionFree(h, all) && AllIn(a, all) && AllIn(b, all)
    requires EndHash(h, a, GENESIS) == EndHash(h, b, GENESIS)
    ensures a == b
    decreases |a|
  {
    hide Body, HashMatches, LinksTo, CollisionFree, AllIn;
    if a != [] {
      FrontIn(a, all);
      SameBody(h, a[|a| - 1], if b != [] then b[|b| - 1] else a[|a| - 1], all);
    }
    if b != [] {
      FrontIn(b, all);
      SameBody(h, b[|b| - 1], b[|b| - 1], all);
    }
    if a != [] && b != [] {
      var a0, b0 := a[..|a| - 1], b[..|b| - 1];
      SameLast(h, a, b);
      SameEndSameRecords(h, a0, b0, all);
      assert a == a0 + [a[|a| - 1]] && b == b0 + [b[|b| - 1]];
    }
  }

  lemma SameHashSameRecord(h: Hash, x: Fields, y: Fields)
    requires HashMatches(h, x) && HashMatches(h, y) && Body(x) == Body(y)
    ensures x == y
    ensures forall p, q | LinksTo(x, p) && LinksTo(y, q) :: p == q
  {
    assert x == Body(x)["hash" := Str(h(Body(x)))];
    assert y == Body(y)["hash" := Str(h(Body(y)))];
  }

  // What a new logger takes as the previous hash; the error is a last line that
  // decodes to something other than an object.
  function LoadLastHash(lines: seq<Line>): Result<string, ()>
    decreases |lines|
  {
    if lines == [] then Ok(GENESIS)
    else
      match lines[|lines| - 1]
      case Blank(_) => LoadLastHash(lines[..|lines| - 1])
      case Undecodable => Ok(GENESIS)
      case NotAnObject => Err(())
      case Record(fields) =>
        var stored := if "hash" in fields then fields["hash"] else Str(GENESIS);
        Ok(if stored.Str? then stored.text else GENESIS)
  }

  lemma {:induction false} LoadsTheEndHash(h: Hash, lines: seq<Line>)
    requires IsIntact(h, lines)
    ensures LoadLastHash(lines) == Ok(EndHash(h, Records(lines), GENESIS))
    decreases |lines|
  {
    IntactIffChained(h, lines, GENESIS, 1);
    if lines != [] {
      var front, last := lines[..|lines| - 1], lines[|lines| - 1];
      assert lines == front + [last];
      RecordsConcat(front, [last]);
      assert last in lines;
      assert Records([last]) == if last.Record? then [last.fields] else [];
      hide Records, Verify, HashMatches, LinksTo, Body;
      if last.Blank? {
        PrefixIsIntact(h, front, [last]);
        LoadsTheEndHash(h, front);
      } else {
        ChainedAppend(h, Records(front), last.fields, GENESIS);
      }
    }
  }

  // Two files that verify and end in the same hash hold the same records, so
  // every edit, insertion, deletion or reordering of records that leaves the
  // last hash in place is rejected.
  lemma LastHashPinsTheLog(h: Hash, original: seq<Line>, found: seq<Line>)
    requires IsIntact(h, original)
    requires CollisionFree(h, SetOf(Records(original)) + SetOf(Records(found)))
    requires LoadLastHash(found) == LoadLastHash(original)
    ensures IsIntact(h, found) ==> Records(found) == Records(original)
  {
    if IsIntact(h, found) {
      IntactIffChained(h, original, GENESIS, 1);
      IntactIffChained(h, found, GENESIS, 1);
      LoadsTheEndHash(h, original);
      LoadsTheEndHash(h, found);
      SameEndSameRecords(h, Records(original), Records(found), SetOf(Records(original)) + SetOf(Records(found)));
    }
  }

  // ---- The writer ----

  datatype Event = Event(
    actor: PyString,
    tenant: Option<PyString>,
    tool: PyString,
    targetQm: Option<PyString>,
    paramsHash: string,
    outcome: string,
    durationMs: int,
    error: Option<string>)

  // An event can be written if its strings have no lone surrogates and its
  // duration fits in 64 bits.
  predicate Writable(e: Event) {
    && WellFormed(e.actor) && WellFormed(e.tool)
    && (e.tenant.Some? ==> WellFormed(e.tenant.value))
    && (e.targetQm.Some? ==> WellFormed(e.targetQm.value))
    && Encoding.FitsIn64Bits(e.durationMs)
  }

  function OptionalText(o: Option<PyString>): Json
    requires o.Some? ==> WellFormed(o.value)
  {
    if o.Some? then Str(Chars(o.value)) else Null
  }

  function Optional(o: Option<string>): Json {
    if o.Some? then Str(o.value) else Null
  }

  function EventFields(ts: string, e: Event): Fields
    requires Writable(e)
  {
    map["ts" := Str(ts), "actor" := Str(Chars(e.actor)), "tenant" := OptionalText(e.tenant),
        "tool" := Str(Chars(e.tool)), "target_qm" := OptionalText(e.targetQm),
        "params_hash" := Str(e.paramsHash), "outcome" := Str(e.outcome),
        "duration_ms" := Num(e.durationMs), "error" := Optional(e.error)]
  }

  // The field is the given text, or null if there is none.
  predicate IsTextOrNull(field: Option<Json>, text: Option<PyString>) {
    if text.Some? then WellFormed(text.value) && field == Some(Str(Chars(text.value))) else field == Some(Null)
  }

  // The record tells when the call was made, by whom, what was called on which
  // queue manager, how it ended and how long it took, each under its own key.
  predicate TellsEvent(fields: Fields, ts: string, e: Event) {
    && Get(fields, "ts") == Some(Str(ts))
    && IsTextOrNull(Get(fields, "actor"), Some(e.actor))
    && IsTextOrNull(Get(fields, "tenant"), e.tenant)
    && IsTextOrNull(Get(fields, "tool"), Some(e.tool))
    && IsTextOrNull(Get(fields, "target_qm"), e.targetQm)
    && Get(fields, "params_hash") == Some(Str(e.paramsHash))
    && Get(fields, "outcome") == Some(Str(e.outcome))
    && Get(fields, "duration_ms") == Some(Num(e.durationMs))
    && Get(fields, "error") == Some(if e.error.Some? then Str(e.error.value) else Null)
  }

  lemma FieldsTellEvent(ts: string, e: Event)
    requires Writable(e)
    ensures TellsEvent(EventFields(ts, e), ts, e)
    ensures EventFields(ts, e).Keys
         == {"ts", "actor", "tenant", "tool", "target_qm", "params_hash", "outcome", "duration_ms", "error"}
  {
  }

  lemma SealedTellsEvent(h: Hash, ts: string, e: Event, prev: string)
    requires Writable(e)
    ensures TellsEvent(Sealed(h, EventFields(ts, e), prev), ts, e)
  {
    FieldsTellEvent(ts, e);
    hide EventFields, IsTextOrNull;
  }

  // ---- The record as the encoder sees it ----

  function Member(key: string, value: Encoding.Value, rest: Encoding.Items): Encoding.Items {
    Encoding.Item(Codes(key), value, rest)
  }

  function PlainText(s: string): Encoding.Value {
    Encoding.Text(Codes(s))
  }

  function TextOrNull(o: Option<PyString>): Encoding.Value {
    if o.Some? then Encoding.Text(o.value) else Encoding.Null
  }

  function PlainOrNull(o: Option<string>): Encoding.Value {
    if o.Some? then PlainText(o.value) else Encoding.Null
  }

  function LastMembers(e: Event, prev: string): Encoding.Items {
    Member("params_hash", PlainText(e.paramsHash),
    Member("outcome", PlainText(e.outcome),
    Member("duration_ms", Encoding.Int(e.durationMs),
    Member("error", PlainOrNull(e.error),
    Member("prev_hash", PlainText(prev), Encoding.Done)))))
  }

  function RecordValue(ts: string, e: Event, prev: string): Encoding.Value {
    Encoding.Object(
      Member("ts", PlainText(ts),
      Member("actor", Encoding.Text(e.actor),
      Member("tenant", TextOrNull(e.tenant),
      Member("tool", Encoding.Text(e.tool),
      Member("target_qm", TextOrNull(e.targetQm),
      LastMembers(e, prev)))))))
  }

  function KeysOf(items: Encoding.Items): seq<PyString> {
    match items
    case Done => []
    case Item(key, _, rest) => [key] + KeysOf(rest)
  }

  lemma OneMoreKey(key: string, value: Encoding.Value, rest: Encoding.Items)
    ensures KeysOf(Member(key, value, rest)) == [Codes(key)] + KeysOf(rest)
  {
  }

  // The keys it is encoded under: those of its fields and of the previous hash.
  lemma RecordKeysAre(ts: string, e: Event, prev: string)
    ensures KeysOf(RecordValue(ts, e, prev).items) ==
      [Codes("ts")] + ([Codes("actor")] + ([Codes("tenant")] + ([Codes("tool")] + ([Codes("target_qm")]
      + ([Codes("params_hash")] + ([Codes("outcome")] + ([Codes("duration_ms")] + ([Codes("error")]
      + ([Codes("prev_hash")] + KeysOf(Encoding.Done))))))))))
  {
    hide Codes, PlainText, TextOrNull, PlainOrNull, Member, KeysOf;
    var e1 := Member("prev_hash", PlainText(prev), Encoding.Done);
    var e2 := Member("error", PlainOrNull(e.error), e1);
    var e3 := Member("duration_ms", Encoding.Int(e.durationMs), e2);
    var e4 := Member("outcome", PlainText(e.outcome), e3);
    var e5 := LastMembers(e, prev);
    var e6 := Member("target_qm", TextOrNull(e.targetQm), e5);
    var e7 := Member("tool", Encoding.Text(e.tool), e6);
    var e8 := Member("tenant", TextOrNull(e.tenant), e7);
    OneMoreKey("prev_hash", PlainText(prev), Encoding.Done);
    OneMoreKey("error", PlainOrNull(e.error), e1);
    OneMoreKey("duration_ms", Encoding.Int(e.durationMs), e2);
    OneMoreKey("outcome", PlainText(e.outcome), e3);
    OneMoreKey("params_hash", PlainText(e.paramsHash), e4);
    OneMoreKey("target_qm", TextOrNull(e.targetQm), e5);
    OneMoreKey("tool", Encoding.Text(e.tool), e6);
    OneMoreKey("tenant", TextOrNull(e.tenant), e7);
    OneMoreKey("actor", Encoding.Text(e.actor), e8);
    OneMoreKey("ts", PlainText(ts), Member("actor", Encoding.Text(e.actor), e8));
  }

  predicate IsScalar(v: Encoding.Value) {
    !v.List? && !v.Object?
  }

  lemma OneMoreMember(key: string, value: Encoding.Value, rest: Encoding.Items)
    requires IsScalar(value)
    ensures Encoding.EncodableItems(Member(key, value, rest), true, 0)
       <==> Encoding.IsWritable(value) && Encoding.EncodableItems(rest, true, 0)
  {
    TextIsWellFormed(key);
    var items := Member(key, value, rest);
    assert Encoding.LeavesOf(items, true)
        == {Encoding.Text(Codes(key))} + Encoding.Leaves(value) + Encoding.LeavesOf(rest, true);
    assert Encoding.Leaves(value) == {value} && Encoding.Nesting(value) == 0;
    assert value in Encoding.LeavesOf(items, true) && Encoding.IsWritable(Encoding.Text(Codes(key)));
    forall leaf | leaf in Encoding.LeavesOf(rest, true) ensures leaf in Encoding.LeavesOf(items, true) {
    }
  }

  lemma PlainIsWritable(s: string, o: Option<string>)
    ensures Encoding.IsWritable(PlainText(s)) && Encoding.IsWritable(PlainOrNull(o))
  {
    TextIsWellFormed(s);
    if o.Some? {
      TextIsWellFormed(o.value);
    }
  }

  lemma LastMembersEncodeIff(e: Event, prev: string)
    ensures Encoding.EncodableItems(LastMembers(e, prev), true, 0) <==> Encoding.FitsIn64Bits(e.durationMs)
  {
    PlainIsWritable(prev, e.error);
    PlainIsWritable(e.outcome, None);
    PlainIsWritable(e.paramsHash, None);
    assert Encoding.EncodableItems(Encoding.Done, true, 0);
    hide Member, Codes, Encoding.EncodableItems;
    var e1 := Member("prev_hash", PlainText(prev), Encoding.Done);
    OneMoreMember("prev_hash", PlainText(prev), Encoding.Done);
    var e2 := Member("error", PlainOrNull(e.error), e1);
    OneMoreMember("error", PlainOrNull(e.error), e1);
    var e3 := Member("duration_ms", Encoding.Int(e.durationMs), e2);
    OneMoreMember("duration_ms", Encoding.Int(e.durationMs), e2);
    OneMoreMember("outcome", PlainText(e.outcome), e3);
    OneMoreMember("params_hash", PlainText(e.paramsHash), Member("outcome", PlainText(e.outcome), e3));
  }

  // The encoder accepts a record exactly when its event can be written.
  lemma RecordEncodesIff(ts: string, e: Event, prev: string)
    ensures Encoding.Encode(RecordValue(ts, e, prev), 1).Some? <==> Writable(e)
  {
    var value := RecordValue(ts, e, prev);
    Encoding.EncodesIff(value, 1);
    assert Encoding.Encodable(value, 1) <==> Encoding.EncodableItems(value.items, true, 0);
    LastMembersEncodeIff(e, prev);
    PlainIsWritable(ts, None);
    hide Member, Codes, LastMembers, Encoding.EncodableItems, Encoding.Encodable, Encoding.Encode;
    var e0 := LastMembers(e, prev);
    var e1 := Member("target_qm", TextOrNull(e.targetQm), e0);
    OneMoreMember("target_qm", TextOrNull(e.targetQm), e0);
    var e2 := Member("tool", Encoding.Text(e.tool), e1);
    OneMoreMember("tool", Encoding.Text(e.tool), e1);
    var e3 := Member("tenant", TextOrNull(e.tenant), e2);
    OneMoreMember("tenant", TextOrNull(e.tenant), e2);
    var e4 := Member("actor", Encoding.Text(e.actor), e3);
    OneMoreMember("actor", Encoding.Text(e.actor), e3);
    OneMoreMember("ts", PlainText(ts), e4);
  }

  predicate Unchained(fields: Fields) {
    "hash" !in fields && "prev_hash" !in fields
  }

  // A record as stored: linked to prev, then sealed with its own hash.
  function Sealed(h: Hash, fields: Fields, prev: string): Fields {
    var body := fields["prev_hash" := Str(prev)];
    body["hash" := Str(h(body))]
  }

  lemma SealedIsChained(h: Hash, fields: Fields, prev: string)
    requires Unchained(fields)
    ensures var r := Sealed(h, fields, prev);
            LinksTo(r, prev) && HashMatches(h, r) && Payload(r) == fields
  {
    var body := fields["prev_hash" := Str(prev)];
    assert Body(body["hash" := Str(h(body))]) == body;
  }

  // The record that a write appends, if it gets a line of its own.
  lemma AppendedTellsEvent(h: Hash, lines: seq<Line>, open: bool, ts: string, e: Event, prev: string)
    requires Writable(e) && !Spoils(lines, open)
    ensures var after := AppendRecord(lines, open, Sealed(h, EventFields(ts, e), prev));
            && after != [] && var last := after[|after| - 1];
            && last.Record? && TellsEvent(last.fields, ts, e)
            && LinksTo(last.fields, prev) && HashMatches(h, last.fields)
  {
    SealedTellsEvent(h, ts, e, prev);
    FieldsTellEvent(ts, e);
    hide EventFields, TellsEvent;
    SealedIsChained(h, EventFields(ts, e), prev);
    hide Sealed, LinksTo, HashMatches;
  }

  lemma SealedBody(h: Hash, fields: Fields, prev: string)
    requires Unchained(fields)
    ensures Body(Sealed(h, fields, prev)) == fields["prev_hash" := Str(prev)]
  {
    var body := fields["prev_hash" := Str(prev)];
    assert Body(body["hash" := Str(h(body))]) == body;
  }

  // What a write does to a file, and to whether its logger is in step with it.
  lemma WriteKeepsInStep(h: Hash, lines: seq<Line>, open: bool, ts: string, e: Event, prev: string)
    requires Writable(e)
    ensures var sealed := Sealed(h, EventFields(ts, e), prev);
            var after, next := AppendRecord(lines, open, sealed), h(Body(sealed));
            && Unchained(EventFields(ts, e))
            && (!Spoils(lines, open) ==>
                  after != [] && var last := after[|after| - 1];
                  && last.Record? && TellsEvent(last.fields, ts, e)
                  && LinksTo(last.fields, prev) && HashMatches(h, last.fields))
            && (IsIntact(h, lines) ==>
                  (IsIntact(h, after) && LoadLastHash(after) == Ok(next) && !Spoils(after, false)
                   <==> LoadLastHash(lines) == Ok(prev) && !Spoils(lines, open)))
  {
    FieldsTellEvent(ts, e);
    hide EventFields, TellsEvent;
    if !Spoils(lines, open) {
      AppendedTellsEvent(h, lines, open, ts, e, prev);
    }
    hide LinksTo, HashMatches, Sealed, Body;
    if IsIntact(h, lines) {
      AppendKeepsIntactIff(h, lines, open, EventFields(ts, e), prev);
    }
    hide IsIntact, LoadLastHash;
  }

  lemma AppendedRecords(lines: seq<Line>, open: bool, fields: Fields)
    requires !Spoils(lines, open)
    ensures Records(AppendRecord(lines, open, fields)) == Records(lines) + [fields]
    ensures Readable(lines) ==> Readable(AppendRecord(lines, open, fields))
  {
    var last := [Record(fields)];
    assert Records(last) == [fields];
    if open && lines != [] {
      var front := lines[..|lines| - 1];
      assert lines == front + [Blank(true)];
      RecordsConcat(front, [Blank(true)]);
      RecordsConcat(front, last);
    } else {
      RecordsConcat(lines, last);
    }
  }

  // Appending a sealed record keeps a file intact exactly when the record links
  // to the hash a fresh logger would load and starts on a line of its own.
  lemma AppendKeepsIntactIff(h: Hash, lines: seq<Line>, open: bool, fields: Fields, prev: string)
    requires IsIntact(h, lines) && Unchained(fields)
    ensures var after := AppendRecord(lines, open, Sealed(h, fields, prev));
            && (IsIntact(h, after) <==> LoadLastHash(lines) == Ok(prev) && !Spoils(lines, open))
            && LoadLastHash(after) == Ok(if Spoils(lines, open) then GENESIS else h(Body(Sealed(h, fields, prev))))
  {
    var sealed := Sealed(h, fields, prev);
    var after := AppendRecord(lines, open, sealed);
    IntactIffChained(h, lines, GENESIS, 1);
    IntactIffChained(h, after, GENESIS, 1);
    assert after[|after| - 1] == if Spoils(lines, open) then Undecodable else Record(sealed);
    if Spoils(lines, open) {
      assert after[|after| - 1] in after;
    } else {
      LoadsTheEndHash(h, lines);
      SealedIsChained(h, fields, prev);
      AppendedRecords(lines, open, sealed);
      ChainedAppend(h, Records(lines), sealed, GENESIS);
    }
  }

  function Payloads(lines: seq<Line>): seq<Fields> {
    var rs := Records(lines);
    seq(|rs|, i requires 0 <= i < |rs| => Payload(rs[i]))
  }

  lemma AppendAddsPayload(h: Hash, lines: seq<Line>, open: bool, fields: Fields, prev: string)
    requires Unchained(fields) && !Spoils(lines, open)
    ensures Payloads(AppendRecord(lines, open, Sealed(h, fields, prev))) == Payloads(lines) + [fields]
  {
    SealedIsChained(h, fields, prev);
    AppendedRecords(lines, open, Sealed(h, fields, prev));
    hide Records, Sealed, Payload, AppendRecord;
  }

  // The failing input: a file that verifies, ends in a record and has lost its
  // final newline. The next write, although it links to the right hash, makes
  // verification fail, and a restart then begins again from the genesis value.
  lemma LostNewlineBreaksTheChain(h: Hash, first: Fields, second: Fields)
    requires Unchained(first) && Unchained(second)
    ensures var lines := [Record(Sealed(h, first, GENESIS))];
            var prev := h(Body(Sealed(h, first, GENESIS)));
            var after := AppendRecord(lines, true, Sealed(h, second, prev));
            && IsIntact(h, lines) && LoadLastHash(lines) == Ok(prev)
            && !IsIntact(h, after) && LoadLastHash(after) == Ok(GENESIS)
            && IsIntact(h, AppendRecord(lines, false, Sealed(h, second, prev)))
  {
    var lines := [Record(Sealed(h, first, GENESIS))];
    assert AppendRecord([], false, Sealed(h, first, GENESIS)) == lines;
    AppendKeepsIntactIff(h, [], false, first, GENESIS);
    AppendKeepsIntactIff(h, lines, true, second, h(Body(lines[0].fields)));
    AppendKeepsIntactIff(h, lines, false, second, h(Body(lines[0].fields)));
  }

  class AuditLogger {
    const hash: Hash
    const file: LogFile
    var prevHash: string

    ghost predicate Valid()
      reads this, file
    {
      IsIntact(hash, file.lines) && LoadLastHash(file.lines) == Ok(prevHash) && !Spoils(file.lines, file.open)
    }

    // The resuming constructor; prev is what LoadLastHash gave for the file.
    constructor (h: Hash, file: LogFile, prev: string)
      requires LoadLastHash(file.lines) == Ok(prev)
      ensures hash == h && this.file == file && prevHash == prev
      ensures IsIntact(h, file.lines) && !Spoils(file.lines, file.open) ==> Valid()
    {
      hash, this.file, prevHash := h, file, prev;
    }

    static method Load(file: LogFile) returns (r: Result<string, ()>)
      ensures r == LoadLastHash(file.lines)
    {
      var lines := file.lines;
      var lastLine := Blank(true);
      for i := 0 to |lines|
        invariant LoadLastHash(lines[..i]) == LoadLastHash([lastLine])
      {
        assert lines[..i + 1][..i] == lines[..i] && lines[..i + 1][i] == lines[i];
        assert [lines[i]][..0] == [];
        if !lines[i].Blank? {
          lastLine := lines[i];
        }
      }
      assert lines[..|lines|] == lines && [lastLine][..0] == [];
      match lastLine {
        case Blank(_) => return Ok(GENESIS);
        case Undecodable => return Ok(GENESIS);
        case NotAnObject => return Err(());
        case Record(fields) =>
          var stored := if "hash" in fields then fields["hash"] else Str(GENESIS);
          return Ok(if stored.Str? then stored.text else GENESIS);
      }
    }

    // Raises, and changes nothing, when the record cannot be encoded. Otherwise
    // appends the sealed record, which keeps an intact file intact exactly when
    // the previous hash is the last one and the last line is not left open.
    method Write(ts: string, e: Event) returns (r: Result<string, ()>)
      modifies this, file
      ensures r.Ok? <==> Writable(e)
      ensures !Writable(e) ==> file.lines == old(file.lines) && file.open == old(file.open) && prevHash == old(prevHash)
      ensures Writable(e) ==>
        && file.lines == AppendRecord(old(file.lines), old(file.open), Sealed(hash, EventFields(ts, e), old(prevHash)))
        && !file.open
        && r == Ok(prevHash) && prevHash == hash(Body(Sealed(hash, EventFields(ts, e), old(prevHash))))
      ensures Writable(e) && !old(Spoils(file.lines, file.open)) ==>
        && file.lines != [] && var last := file.lines[|file.lines| - 1];
        && last.Record? && TellsEvent(last.fields, ts, e)
        && LinksTo(last.fields, old(prevHash)) && HashMatches(hash, last.fields)
      ensures old(IsIntact(hash, file.lines)) && Writable(e) ==> (Valid() <==> old(Valid()))
    {
      RecordEncodesIff(ts, e, prevHash);
      if Writable(e) {
        WriteKeepsInStep(hash, file.lines, file.open, ts, e, prevHash);
      }
      hide Encoding.Encode, RecordValue, EventFields, TellsEvent, LinksTo, HashMatches;
      hide IsIntact, LoadLastHash, AppendRecord, Spoils, Writable, Body;
      if Encoding.Encode(RecordValue(ts, e, prevHash), 1).None? {
        return Err(());
      }
      var record := EventFields(ts, e);
      ghost var sealed := Sealed(hash, record, prevHash);
      record := record["prev_hash" := Str(prevHash)];
      var recordHash := hash(record);
      record := record["hash" := Str(recordHash)];
      assert record == sealed;
      SealedBody(hash, EventFields(ts, e), prevHash);
      file.lines := AppendRecord(file.lines, file.open, record);
      file.open := false;
      prevHash := recordHash;
      r := Ok(recordHash);
    }
  }
}
