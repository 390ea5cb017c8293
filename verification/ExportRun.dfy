/** An export command by command, after ExportFiles of internal/sandbox/client.go: what every answer of
    the sandbox leads to, and exactly when the result is whole. */
module ExportRun {
  import opened Base64
  import opened Domain
  import opened Sums

  const EXPORT_CHUNK := 524288
  const MAX_ARTIFACT_TOTAL := 64 * 1024 * 1024

  /** What one shell command does. A command that does not end well leaves its target alone or with
      arbitrary contents. Of a file's block it has read the first `read` bytes and printed the first
      `printed` letters of their base64 encoding, both perhaps all. Only Unreachable is an error of Exec. */
  datatype Outcome =
    | Done
    | Refused(left: Option<Bytes>, read: nat, printed: nat)
    | Unreachable(left: Option<Bytes>)

  datatype ExportError = CommandFailed | BadOutput | TooLarge

  /** A sandbox as an export sees it: the name printed for a path, if it is located, and the bytes read
      under a name. */
  datatype View = View(target: string -> Option<string>, content: string -> Bytes)

  // ---- What an export returns -------------------------------------------------------------------------

  /** Every located path with the contents of the file read for it. */
  function Exports(v: View, paths: seq<string>): map<string, Bytes> {
    map p | p in paths && v.target(p).Some? :: v.content(v.target(p).value)
  }

  function Targets(v: View, paths: seq<string>): set<string> {
    set p | p in paths && v.target(p).Some? :: v.target(p).value
  }

  /** The size of every file read, aliases once. */
  function Volumes(v: View, names: set<string>): map<string, nat> {
    map t | t in names :: |v.content(t)|
  }

  function Sizes(m: map<string, Bytes>): map<string, nat> { map k | k in m :: |m[k]| }

  function Least(a: nat, b: nat): nat { if a < b then a else b }

  /** The bytes dd reads after skipping that many blocks. */
  function Block(whole: Bytes, skip: nat): Bytes {
    var from := Least(skip * EXPORT_CHUNK, |whole|);
    whole[from..Least(from + EXPORT_CHUNK, |whole|)]
  }

  lemma BlockIsNext(whole: Bytes, skip: nat)
    requires skip * EXPORT_CHUNK <= |whole|
    ensures var b := Block(whole, skip);
            && |b| <= EXPORT_CHUNK && whole[..skip * EXPORT_CHUNK] + b == whole[..skip * EXPORT_CHUNK + |b|]
            && (|b| < EXPORT_CHUNK ==> whole[..skip * EXPORT_CHUNK] + b == whole)
            && skip * EXPORT_CHUNK + |b| <= |whole| && skip <= |whole| / EXPORT_CHUNK
  {
  }

  function Contents(v: View, names: set<string>): map<string, Bytes> {
    map t | t in names :: v.content(t)
  }

  /** Everything read so far is a beginning of its file. */
  predicate Parts(v: View, exported: map<string, Bytes>) {
    forall t | t in exported :: exported[t] <= v.content(t)
  }

  lemma SizesOfContents(v: View, names: set<string>)
    ensures Sizes(Contents(v, names)) == Volumes(v, names)
  {
  }

  lemma AddSize(exported: map<string, Bytes>, name: string, data: Bytes)
    requires name !in exported
    ensures Sum(Sizes(exported[name := data])) == Sum(Sizes(exported)) + |data|
  {
    assert Sizes(exported[name := data]) == Sizes(exported)[name := |data|];
    SumInsert(Sizes(exported), name, |data|);
  }

  /** Everything returned is a beginning of the file located for its path. */
  predicate Beginnings(v: View, paths: seq<string>, out: map<string, Bytes>) {
    forall p | p in out ::
      p in paths && v.target(p).Some? && out[p] <= v.content(v.target(p).value)
  }

  /** The files read and the result are exactly as they should be. */
  predicate Exact(v: View, done: seq<string>, out: map<string, Bytes>, exported: map<string, Bytes>) {
    exported == Contents(v, Targets(v, done)) && out == Exports(v, done)
  }

  lemma NextPath(v: View, done: seq<string>, p: string)
    ensures var t := v.target(p);
            && Targets(v, done + [p]) == Targets(v, done) + (if t.Some? then {t.value} else {})
            && Exports(v, done + [p])
               == if t.Some? then Exports(v, done)[p := v.content(t.value)]
                  else Exports(v, done)
  {
  }

  lemma ContentsGrow(v: View, names: set<string>, name: string)
    ensures Contents(v, names + {name}) == Contents(v, names)[name := v.content(name)]
  {
  }

  lemma ExactAfter(v: View, done: seq<string>, p: string, out: map<string, Bytes>,
                   exported: map<string, Bytes>)
    requires Exact(v, done, out, exported)
    ensures var t := v.target(p);
            if t.None? then Exact(v, done + [p], out, exported)
            else
              var data := v.content(t.value);
              Exact(v, done + [p], out[p := data], exported[t.value := data])
  {
    NextPath(v, done, p);
    var t := v.target(p);
    if t.None? {
      assert Targets(v, done + [p]) == Targets(v, done);
    } else {
      ContentsGrow(v, Targets(v, done), t.value);
    }
  }

  lemma AlreadyExact(v: View, done: seq<string>, out: map<string, Bytes>,
                     exported: map<string, Bytes>, name: string)
    requires Exact(v, done, out, exported) && name in exported
    ensures exported[name] == v.content(name) && exported[name := v.content(name)] == exported
  {
  }

  /** One more of some files does not fit, so all of them do not. */
  lemma DoesNotFit(v: View, some: set<string>, all: set<string>, name: string)
    requires some <= all && name in all && name !in some
    requires Sum(Sizes(Contents(v, some))) + |v.content(name)| > MAX_ARTIFACT_TOTAL
    ensures Sum(Volumes(v, all)) > MAX_ARTIFACT_TOTAL
  {
    AddSize(Contents(v, some), name, v.content(name));
    var part := Contents(v, some)[name := v.content(name)];
    SumOfPart(Sizes(part), Volumes(v, all));
  }

  // ---- One file ----------------------------------------------------------------------------------

  function FirstBytes(b: Bytes, n: nat): Bytes { if n < |b| then b[..n] else b }

  /** What the client gets from a command that should deliver these bytes. The exit status is not looked
      at: whatever was printed is decoded. */
  function Arrives(o: Outcome, b: Bytes): Result<Bytes, ExportError> {
    match o
    case Done => Ok(b)
    case Unreachable(_) => Err(CommandFailed)
    case Refused(_, read, printed) =>
      match DecodedPart(FirstBytes(b, read), printed)
      case Some(part) => Ok(part)
      case None => Err(BadOutput)
  }

  lemma ArrivesPart(o: Outcome, b: Bytes)
    ensures Arrives(o, b).Ok? ==> Arrives(o, b).value <= b
    ensures o.Done? ==> Arrives(o, b) == Ok(b)
    ensures Arrives(o, b).Err? ==> Arrives(o, b).error in {CommandFailed, BadOutput}
  {
  }

  /** Exactly a proper beginning of c bytes arrives: the refused command has read just those and printed
      all of them, or has read more and stopped printing at the end of that many whole groups of three. */
  predicate CutAt(o: Outcome, b: Bytes, c: nat) {
    && o.Refused? && c < |b|
    && ((o.read == c && o.printed >= Letters(c)) || (o.read > c && c % 3 == 0 && o.printed == c / 3 * 4))
  }

  lemma ArrivesCutIff(o: Outcome, b: Bytes, c: nat)
    requires c < |b|
    ensures Arrives(o, b) == Ok(b[..c]) <==> CutAt(o, b, c)
  {
    if o.Refused? {
      var first := FirstBytes(b, o.read);
      var part := DecodedPart(first, o.printed);
      if part.Some? && |part.value| != c { assert part.value != b[..c]; }
      if part.Some? && o.printed < Letters(|first|) { assert |part.value| == o.printed / 4 * 3; }
      if c <= |first| { assert first[..c] == b[..c]; }
    } else if o.Done? {
      assert |b| != |b[..c]|;
    }
  }

  /** What a file's block loop returns, and the number of commands it issues. */
  datatype Reading = Reading(r: Result<Bytes, ExportError>, commands: nat)

  /** The loop from block `skip` on. Its first command had number `at`; `before` bytes are already
      exported. A block that comes short ends the loop. */
  function ReadFrom(whole: Bytes, plan: nat -> Outcome, at: nat, skip: nat, before: nat): Reading
    requires skip * EXPORT_CHUNK <= |whole|
    decreases |whole| - skip * EXPORT_CHUNK
  {
    var got, next := whole[..skip * EXPORT_CHUNK], Arrives(plan(at + skip), Block(whole, skip));
    if next.Err? then Reading(Err(next.error), skip + 1)
    else if next.value == [] then Reading(Ok(got), skip + 1)
    else if before + |got| + |next.value| > MAX_ARTIFACT_TOTAL then Reading(Err(TooLarge), skip + 1)
    else if |next.value| < EXPORT_CHUNK then Reading(Ok(got + next.value), skip + 1)
    else ArrivesPart(plan(at + skip), Block(whole, skip)); ReadFrom(whole, plan, at, skip + 1, before)
  }

  /** Every command from number `from` up to number `to` does its work. */
  predicate AllDone(plan: nat -> Outcome, from: nat, to: nat) { forall k: nat | from <= k < to :: plan(k).Done? }

  /** The blocks of a file that hold bytes. */
  function Blocks(n: nat): nat { (n + EXPORT_CHUNK - 1) / EXPORT_CHUNK }

  /** Block k arrives whole. */
  predicate Delivered(whole: Bytes, plan: nat -> Outcome, at: nat, k: nat) {
    Arrives(plan(at + k), Block(whole, k)) == Ok(Block(whole, k))
  }

  predicate AllDelivered(whole: Bytes, plan: nat -> Outcome, at: nat, from: nat, to: nat) {
    forall k: nat | from <= k < to :: Delivered(whole, plan, at, k)
  }

  /** The commands that make the read whole: every block with bytes is delivered, and the last look past
      a file of whole blocks is at least answered. */
  predicate ReadsWhole(whole: Bytes, plan: nat -> Outcome, at: nat, skip: nat) {
    && AllDelivered(whole, plan, at, skip, Blocks(|whole|))
    && (|whole| % EXPORT_CHUNK == 0 ==> !plan(at + |whole| / EXPORT_CHUNK).Unreachable?)
  }

  /** A file of at most `skip` blocks has none left after them, and a full block is followed by the rest. */
  lemma BlockShape(whole: Bytes, skip: nat)
    requires skip * EXPORT_CHUNK <= |whole|
    ensures |Block(whole, skip)| < EXPORT_CHUNK <==> skip == |whole| / EXPORT_CHUNK
    ensures Block(whole, skip) == [] <==> skip * EXPORT_CHUNK == |whole|
    ensures skip * EXPORT_CHUNK == |whole| ==> |whole| % EXPORT_CHUNK == 0 && Blocks(|whole|) == skip
    ensures skip * EXPORT_CHUNK < |whole| ==> skip < Blocks(|whole|)
    ensures 0 < |Block(whole, skip)| < EXPORT_CHUNK ==> Blocks(|whole|) == skip + 1 && |whole| % EXPORT_CHUNK != 0
  {
  }

  /** The loop goes on to the next block. */
  predicate GoesOn(whole: Bytes, plan: nat -> Outcome, at: nat, skip: nat, before: nat) {
    && skip * EXPORT_CHUNK <= |whole| && |Block(whole, skip)| == EXPORT_CHUNK
    && Delivered(whole, plan, at, skip) && before + (skip + 1) * EXPORT_CHUNK <= MAX_ARTIFACT_TOTAL
  }

  /** One turn of the loop: on to the next block, or the end. */
  lemma OneTurn(whole: Bytes, plan: nat -> Outcome, at: nat, skip: nat, before: nat)
    requires skip * EXPORT_CHUNK <= |whole| && before + skip * EXPORT_CHUNK <= MAX_ARTIFACT_TOTAL
    ensures var rd, got := ReadFrom(whole, plan, at, skip, before), whole[..skip * EXPORT_CHUNK];
            var b, next := Block(whole, skip), Arrives(plan(at + skip), Block(whole, skip));
            if GoesOn(whole, plan, at, skip, before)
            then (skip + 1) * EXPORT_CHUNK <= |whole| && rd == ReadFrom(whole, plan, at, skip + 1, before)
            else
              && rd.commands == skip + 1
              && (next.Err? ==> rd.r == Err(next.error))
              && (next.Ok? && before + |got| + |next.value| <= MAX_ARTIFACT_TOTAL ==> rd.r == Ok(got + next.value))
              && (next.Ok? && before + |got| + |next.value| > MAX_ARTIFACT_TOTAL ==> rd.r == Err(TooLarge))
  {
    BlockIsNext(whole, skip);
    ArrivesPart(plan(at + skip), Block(whole, skip));
    var next := Arrives(plan(at + skip), Block(whole, skip));
    if next.Ok? && next.value == [] { assert whole[..skip * EXPORT_CHUNK] + [] == whole[..skip * EXPORT_CHUNK]; }
  }

  /** A beginning of the next block continues what has been read. */
  lemma Continues(whole: Bytes, skip: nat, next: Bytes)
    requires skip * EXPORT_CHUNK <= |whole| && next <= Block(whole, skip)
    ensures skip * EXPORT_CHUNK + |next| <= |whole|
    ensures whole[..skip * EXPORT_CHUNK] + next == whole[..skip * EXPORT_CHUNK + |next|]
  {
    BlockIsNext(whole, skip);
  }

  /** The same as the loop sees it, with what has been read and what arrives. */
  lemma TurnOfLoop(whole: Bytes, plan: nat -> Outcome, at: nat, skip: nat, before: nat,
                   buf: Bytes, next: Result<Bytes, ExportError>)
    requires skip * EXPORT_CHUNK <= |whole| && buf == whole[..skip * EXPORT_CHUNK]
    requires next == Arrives(plan(at + skip), Block(whole, skip))
    ensures var rd := ReadFrom(whole, plan, at, skip, before);
            if next.Err? then rd == Reading(next, skip + 1)
            else if next.value == [] then rd == Reading(Ok(buf), skip + 1)
            else if before + |buf| + |next.value| > MAX_ARTIFACT_TOTAL then rd == Reading(Err(TooLarge), skip + 1)
            else if |next.value| < EXPORT_CHUNK then rd == Reading(Ok(buf + next.value), skip + 1)
            else
              && (skip + 1) * EXPORT_CHUNK <= |whole| && buf + next.value == whole[..(skip + 1) * EXPORT_CHUNK]
              && rd == ReadFrom(whole, plan, at, skip + 1, before)
  {
    ArrivesPart(plan(at + skip), Block(whole, skip));
    BlockIsNext(whole, skip);
    if next.Ok? && |next.value| == EXPORT_CHUNK { Continues(whole, skip, next.value); }
  }

  lemma {:induction false} ReadFacts(whole: Bytes, plan: nat -> Outcome, at: nat, skip: nat, before: nat)
    requires skip * EXPORT_CHUNK <= |whole| && before + skip * EXPORT_CHUNK <= MAX_ARTIFACT_TOTAL
    ensures var rd := ReadFrom(whole, plan, at, skip, before);
            && skip < rd.commands <= |whole| / EXPORT_CHUNK + 1
            && (rd.r.Ok? ==> rd.r.value <= whole && |rd.r.value| >= skip * EXPORT_CHUNK)
            && (rd.r.Ok? ==> before + |rd.r.value| <= MAX_ARTIFACT_TOTAL)
            && (rd.r == Err(TooLarge) ==> before + |whole| > MAX_ARTIFACT_TOTAL)
            && (rd.r.Err? && rd.r.error != TooLarge ==> !plan(at + rd.commands - 1).Done?)
    decreases |whole| - skip * EXPORT_CHUNK
  {
    BlockIsNext(whole, skip);
    OneTurn(whole, plan, at, skip, before);
    ArrivesPart(plan(at + skip), Block(whole, skip));
    if GoesOn(whole, plan, at, skip, before) {
      ReadFacts(whole, plan, at, skip + 1, before);
    } else if Arrives(plan(at + skip), Block(whole, skip)).Ok? {
      Continues(whole, skip, Arrives(plan(at + skip), Block(whole, skip)).value);
    }
  }

  lemma FirstDelivered(whole: Bytes, plan: nat -> Outcome, at: nat, skip: nat, to: nat)
    requires skip < to
    ensures AllDelivered(whole, plan, at, skip, to)
            <==> Delivered(whole, plan, at, skip) && AllDelivered(whole, plan, at, skip + 1, to)
  {
    if AllDelivered(whole, plan, at, skip, to) { assert Delivered(whole, plan, at, skip); }
  }

  /** The last turn of the loop gives the whole file exactly when its last block arrives whole. */
  lemma LastTurn(whole: Bytes, plan: nat -> Outcome, at: nat, skip: nat, before: nat)
    requires skip * EXPORT_CHUNK <= |whole| && before + skip * EXPORT_CHUNK <= MAX_ARTIFACT_TOTAL
    requires |Block(whole, skip)| < EXPORT_CHUNK
    ensures ReadFrom(whole, plan, at, skip, before).r == Ok(whole)
            <==> before + |whole| <= MAX_ARTIFACT_TOTAL && Delivered(whole, plan, at, skip)
  {
    OneTurn(whole, plan, at, skip, before);
    ArrivesPart(plan(at + skip), Block(whole, skip));
    BlockIsNext(whole, skip);
    var next := Arrives(plan(at + skip), Block(whole, skip));
    if next.Ok? {
      Continues(whole, skip, next.value);
      if |next.value| == |Block(whole, skip)| { assert next.value == Block(whole, skip); }
    }
  }

  /** Past the last byte only an unreachable sandbox matters. */
  lemma LastLook(whole: Bytes, plan: nat -> Outcome, at: nat, skip: nat)
    requires skip * EXPORT_CHUNK == |whole|
    ensures Delivered(whole, plan, at, skip) <==> !plan(at + skip).Unreachable?
  {
    BlockShape(whole, skip);
  }

  /** A file is read whole exactly when it fits and the commands for its blocks deliver them. */
  lemma {:induction false} ReadIsWholeIff(whole: Bytes, plan: nat -> Outcome, at: nat, skip: nat, before: nat)
    requires skip * EXPORT_CHUNK <= |whole| && before + skip * EXPORT_CHUNK <= MAX_ARTIFACT_TOTAL
    ensures ReadFrom(whole, plan, at, skip, before).r == Ok(whole)
            <==> before + |whole| <= MAX_ARTIFACT_TOTAL && ReadsWhole(whole, plan, at, skip)
    decreases |whole| - skip * EXPORT_CHUNK
  {
    BlockShape(whole, skip);
    if |Block(whole, skip)| < EXPORT_CHUNK {
      LastTurn(whole, plan, at, skip, before);
      if skip * EXPORT_CHUNK == |whole| {
        LastLook(whole, plan, at, skip);
      } else {
        FirstDelivered(whole, plan, at, skip, Blocks(|whole|));
      }
    } else {
      OneTurn(whole, plan, at, skip, before);
      FirstDelivered(whole, plan, at, skip, Blocks(|whole|));
      if GoesOn(whole, plan, at, skip, before) {
        ReadIsWholeIff(whole, plan, at, skip + 1, before);
      } else {
        FullBlockLost(whole, plan, at, skip, before);
      }
    }
  }

  /** When a full block does not arrive whole, or does not fit, the file is not read whole. */
  lemma FullBlockLost(whole: Bytes, plan: nat -> Outcome, at: nat, skip: nat, before: nat)
    requires skip * EXPORT_CHUNK <= |whole| && before + skip * EXPORT_CHUNK <= MAX_ARTIFACT_TOTAL
    requires |Block(whole, skip)| == EXPORT_CHUNK && !GoesOn(whole, plan, at, skip, before)
    ensures ReadFrom(whole, plan, at, skip, before).r != Ok(whole)
    ensures before + |whole| > MAX_ARTIFACT_TOTAL || !Delivered(whole, plan, at, skip)
  {
    OneTurn(whole, plan, at, skip, before);
    BlockIsNext(whole, skip);
    ArrivesPart(plan(at + skip), Block(whole, skip));
    var next := Arrives(plan(at + skip), Block(whole, skip));
    if next.Ok? {
      Continues(whole, skip, next.value);
      if |next.value| == EXPORT_CHUNK { assert next.value == Block(whole, skip); }
    }
  }

  /** With every command done the read fails only for its size. */
  lemma {:induction false} SmoothRead(whole: Bytes, plan: nat -> Outcome, at: nat, skip: nat, before: nat)
    requires skip * EXPORT_CHUNK <= |whole| && before + skip * EXPORT_CHUNK <= MAX_ARTIFACT_TOTAL
    requires AllDone(plan, at + skip, at + ReadFrom(whole, plan, at, skip, before).commands)
    ensures ReadFrom(whole, plan, at, skip, before).r
            == if before + |whole| <= MAX_ARTIFACT_TOTAL then Ok(whole) else Err(TooLarge)
    decreases |whole| - skip * EXPORT_CHUNK
  {
    BlockIsNext(whole, skip);
    ReadFacts(whole, plan, at, skip, before);
    assert plan(at + skip).Done?;
    OneTurn(whole, plan, at, skip, before);
    if GoesOn(whole, plan, at, skip, before) { SmoothRead(whole, plan, at, skip + 1, before); }
  }

  /** The silent truncation, at any byte: an export of a file succeeds with just its first m bytes exactly
      when they fit, the blocks before that byte are delivered, and the command for its block is refused
      after printing what decodes to the bytes up to it. */
  lemma CutShortIff(whole: Bytes, plan: nat -> Outcome, at: nat, skip: nat, before: nat, m: nat)
    requires skip * EXPORT_CHUNK <= m < |whole| && before + skip * EXPORT_CHUNK <= MAX_ARTIFACT_TOTAL
    ensures var k := m / EXPORT_CHUNK;
            ReadFrom(whole, plan, at, skip, before).r == Ok(whole[..m])
            <==> && before + m <= MAX_ARTIFACT_TOTAL && AllDelivered(whole, plan, at, skip, k)
                 && CutAt(plan(at + k), Block(whole, k), m - k * EXPORT_CHUNK)
  {
    CutInBlock(whole, plan, at, skip, before, m, m / EXPORT_CHUNK);
  }

  lemma {:induction false} CutInBlock(
      whole: Bytes, plan: nat -> Outcome, at: nat, skip: nat, before: nat, m: nat, k: nat)
    requires skip <= k && k * EXPORT_CHUNK <= m < |whole| && m < (k + 1) * EXPORT_CHUNK
    requires before + skip * EXPORT_CHUNK <= MAX_ARTIFACT_TOTAL
    ensures ReadFrom(whole, plan, at, skip, before).r == Ok(whole[..m])
            <==> && before + m <= MAX_ARTIFACT_TOTAL && AllDelivered(whole, plan, at, skip, k)
                 && CutAt(plan(at + k), Block(whole, k), m - k * EXPORT_CHUNK)
    decreases k - skip
  {
    if skip == k {
      CutHere(whole, plan, at, skip, before, m);
    } else {
      FirstDelivered(whole, plan, at, skip, k);
      if GoesOn(whole, plan, at, skip, before) {
        OneTurn(whole, plan, at, skip, before);
        CutInBlock(whole, plan, at, skip + 1, before, m, k);
      } else {
        StopsBefore(whole, plan, at, skip, before, m);
      }
    }
  }

  /** A loop that stops at a block gives nothing that reaches beyond it. */
  lemma StopsBefore(whole: Bytes, plan: nat -> Outcome, at: nat, skip: nat, before: nat, m: nat)
    requires (skip + 1) * EXPORT_CHUNK <= m < |whole| && before + skip * EXPORT_CHUNK <= MAX_ARTIFACT_TOTAL
    requires !GoesOn(whole, plan, at, skip, before)
    ensures ReadFrom(whole, plan, at, skip, before).r != Ok(whole[..m])
    ensures before + m > MAX_ARTIFACT_TOTAL || !Delivered(whole, plan, at, skip)
  {
    BlockIsNext(whole, skip);
    OneTurn(whole, plan, at, skip, before);
    ArrivesPart(plan(at + skip), Block(whole, skip));
    var next := Arrives(plan(at + skip), Block(whole, skip));
    if next.Ok? {
      Continues(whole, skip, next.value);
      if |next.value| == EXPORT_CHUNK { assert next.value == Block(whole, skip); }
    }
  }

  /** A cut inside the very block that is read. */
  lemma CutHere(whole: Bytes, plan: nat -> Outcome, at: nat, skip: nat, before: nat, m: nat)
    requires skip * EXPORT_CHUNK <= m < |whole| && m < (skip + 1) * EXPORT_CHUNK
    requires before + skip * EXPORT_CHUNK <= MAX_ARTIFACT_TOTAL
    ensures ReadFrom(whole, plan, at, skip, before).r == Ok(whole[..m])
            <==> before + m <= MAX_ARTIFACT_TOTAL && CutAt(plan(at + skip), Block(whole, skip), m - skip * EXPORT_CHUNK)
  {
    var b, c := Block(whole, skip), m - skip * EXPORT_CHUNK;
    BlockIsNext(whole, skip);
    OneTurn(whole, plan, at, skip, before);
    ArrivesPart(plan(at + skip), b);
    ArrivesCutIff(plan(at + skip), b, c);
    Continues(whole, skip, b[..c]);
    var next := Arrives(plan(at + skip), b);
    if GoesOn(whole, plan, at, skip, before) {
      ReadFacts(whole, plan, at, skip + 1, before);
    } else if next.Ok? {
      Continues(whole, skip, next.value);
      if |next.value| == c { assert next.value == b[..c]; }
    }
  }

  // ---- All paths -----------------------------------------------------------------------------------

  /** The variables of ExportFiles; `at` is the number of the next command. */
  datatype State = State(
    out: map<string, Bytes>, exported: map<string, Bytes>, total: nat, at: nat, err: Option<ExportError>)

  /** One pass of the loop over the paths. */
  function NextState(v: View, plan: nat -> Outcome, st: State, p: string): State {
    if st.err.Some? then st
    else if plan(st.at).Unreachable? then st.(at := st.at + 1, err := Some(CommandFailed))
    else if plan(st.at).Refused? || v.target(p).None? then st.(at := st.at + 1)
    else
      var t := v.target(p).value;
      if t in st.exported then st.(out := st.out[p := st.exported[t]], at := st.at + 1)
      else WithReading(st, p, t, ReadFrom(v.content(t), plan, st.at + 1, 0, st.total))
  }

  function WithReading(st: State, p: string, t: string, rd: Reading): State {
    match rd.r
    case Err(e) => st.(at := st.at + 1 + rd.commands, err := Some(e))
    case Ok(data) =>
      State(st.out[p := data], st.exported[t := data], st.total + |data|, st.at + 1 + rd.commands, st.err)
  }

  function Run(v: View, plan: nat -> Outcome, at: nat, paths: seq<string>): State {
    if paths == [] then State(map[], map[], 0, at, None)
    else NextState(v, plan, Run(v, plan, at, paths[..|paths| - 1]), paths[|paths| - 1])
  }

  lemma RunOneMore(v: View, plan: nat -> Outcome, at: nat, paths: seq<string>, n: nat)
    requires n < |paths|
    ensures Run(v, plan, at, paths[..n + 1]) == NextState(v, plan, Run(v, plan, at, paths[..n]), paths[n])
  {
    assert paths[..n + 1][..n] == paths[..n] && paths[..n + 1][n] == paths[n];
  }

  // ---- What every run keeps ----------------------------------------------------------------------------

  /** The result holds what was exported for each path's target, and the budget is kept. */
  ghost predicate Consistent(v: View, st: State, done: seq<string>) {
    && st.total == Sum(Sizes(st.exported)) <= MAX_ARTIFACT_TOTAL
    && Parts(v, st.exported)
    && st.exported.Keys <= Targets(v, done)
    && (forall p | p in st.out :: FromExported(v, st, done, p))
  }

  predicate FromExported(v: View, st: State, done: seq<string>, p: string) {
    p in st.out ==>
      && p in done && v.target(p).Some? && v.target(p).value in st.exported
      && st.out[p] == st.exported[v.target(p).value]
  }

  /** How one pass changes a state without error: nothing exported is lost, replaced or invented. */
  predicate Extends(st: State, st': State) {
    && st.at <= st'.at && st.exported.Keys <= st'.exported.Keys && st.out.Keys <= st'.out.Keys
    && (forall t | t in st.exported :: st'.exported[t] == st.exported[t])
  }

  lemma StepExtends(v: View, plan: nat -> Outcome, st: State, p: string)
    ensures Extends(st, NextState(v, plan, st, p))
  {
  }

  lemma {:induction false} RunExtends(v: View, plan: nat -> Outcome, at: nat, paths: seq<string>, n: nat)
    requires n <= |paths|
    ensures Extends(Run(v, plan, at, paths[..n]), Run(v, plan, at, paths))
    ensures Run(v, plan, at, paths).err.None? ==> Run(v, plan, at, paths[..n]).err.None?
    decreases |paths| - n
  {
    if n < |paths| {
      RunExtends(v, plan, at, paths, n + 1);
      RunOneMore(v, plan, at, paths, n);
      StepExtends(v, plan, Run(v, plan, at, paths[..n]), paths[n]);
    } else {
      assert paths[..n] == paths;
    }
  }

  /** Nothing happens after an error. */
  lemma {:induction false} ErrorStays(v: View, plan: nat -> Outcome, at: nat, paths: seq<string>, n: nat)
    requires n <= |paths| && Run(v, plan, at, paths[..n]).err.Some?
    ensures Run(v, plan, at, paths) == Run(v, plan, at, paths[..n])
    decreases |paths| - n
  {
    if n < |paths| {
      RunOneMore(v, plan, at, paths, n);
      ErrorStays(v, plan, at, paths, n + 1);
    } else {
      assert paths[..n] == paths;
    }
  }

  lemma SkipConsistent(v: View, st: State, done: seq<string>, p: string, st': State)
    requires Consistent(v, st, done) && st' == st.(at := st'.at, err := st'.err)
    ensures Consistent(v, st', done + [p])
  {
    NextPath(v, done, p);
    forall q | q in st'.out ensures FromExported(v, st', done + [p], q) { assert FromExported(v, st, done, q); }
  }

  lemma NewConsistent(v: View, st: State, done: seq<string>, p: string, t: string, st': State)
    requires Consistent(v, st, done) && v.target(p) == Some(t)
    requires st'.exported.Keys == st.exported.Keys + {t}
    requires forall u | u in st.exported :: st'.exported[u] == st.exported[u]
    requires st'.out == st.out[p := st'.exported[t]] && st'.exported[t] <= v.content(t)
    requires st'.total == Sum(Sizes(st'.exported)) <= MAX_ARTIFACT_TOTAL
    ensures Consistent(v, st', done + [p])
  {
    NextPath(v, done, p);
    assert p in done + [p];
    forall q | q in st'.out ensures FromExported(v, st', done + [p], q) {
      if q != p { assert FromExported(v, st, done, q); }
    }
  }

  /** A file read for the first time. */
  lemma ReadingConsistent(v: View, plan: nat -> Outcome, st: State, done: seq<string>, p: string, t: string)
    requires Consistent(v, st, done) && v.target(p) == Some(t) && t !in st.exported
    ensures Consistent(v, WithReading(st, p, t, ReadFrom(v.content(t), plan, st.at + 1, 0, st.total)), done + [p])
  {
    var rd := ReadFrom(v.content(t), plan, st.at + 1, 0, st.total);
    ReadFacts(v.content(t), plan, st.at + 1, 0, st.total);
    if rd.r.Ok? {
      AddSize(st.exported, t, rd.r.value);
      NewConsistent(v, st, done, p, t, WithReading(st, p, t, rd));
    } else {
      SkipConsistent(v, st, done, p, WithReading(st, p, t, rd));
    }
  }

  /** A path that changes neither result nor files: not located, or an error. */
  lemma SkippedConsistent(v: View, plan: nat -> Outcome, st: State, done: seq<string>, p: string)
    requires Consistent(v, st, done) && !(st.err.None? && plan(st.at).Done? && v.target(p).Some?)
    ensures Consistent(v, NextState(v, plan, st, p), done + [p])
  {
    SkipConsistent(v, st, done, p, NextState(v, plan, st, p));
  }

  /** An alias of a file already read. */
  lemma AliasConsistent(v: View, plan: nat -> Outcome, st: State, done: seq<string>, p: string)
    requires Consistent(v, st, done) && st.err.None? && plan(st.at).Done? && v.target(p).Some?
    requires v.target(p).value in st.exported
    ensures Consistent(v, NextState(v, plan, st, p), done + [p])
  {
    NewConsistent(v, st, done, p, v.target(p).value, NextState(v, plan, st, p));
  }

  /** A file first met here. */
  lemma NewFileConsistent(v: View, plan: nat -> Outcome, st: State, done: seq<string>, p: string)
    requires Consistent(v, st, done) && st.err.None? && plan(st.at).Done? && v.target(p).Some?
    requires v.target(p).value !in st.exported
    ensures Consistent(v, NextState(v, plan, st, p), done + [p])
  {
    var rd := ReadFrom(v.content(v.target(p).value), plan, st.at + 1, 0, st.total);
    ReadingConsistent(v, plan, st, done, p, v.target(p).value);
    assert NextState(v, plan, st, p) == WithReading(st, p, v.target(p).value, rd);
  }

  lemma StepConsistent(v: View, plan: nat -> Outcome, st: State, done: seq<string>, p: string)
    requires Consistent(v, st, done)
    ensures Consistent(v, NextState(v, plan, st, p), done + [p])
  {
    if !(st.err.None? && plan(st.at).Done? && v.target(p).Some?) {
      SkippedConsistent(v, plan, st, done, p);
    } else if v.target(p).value in st.exported {
      AliasConsistent(v, plan, st, done, p);
    } else {
      NewFileConsistent(v, plan, st, done, p);
    }
  }

  lemma {:induction false} RunConsistent(v: View, plan: nat -> Outcome, at: nat, paths: seq<string>)
    ensures Consistent(v, Run(v, plan, at, paths), paths) && Run(v, plan, at, paths).at >= at
    decreases |paths|
  {
    if paths == [] {
      assert Sizes(Run(v, plan, at, paths).exported) == map[];
    } else {
      var n := |paths| - 1;
      RunConsistent(v, plan, at, paths[..n]);
      StepConsistent(v, plan, Run(v, plan, at, paths[..n]), paths[..n], paths[n]);
      StepExtends(v, plan, Run(v, plan, at, paths[..n]), paths[n]);
      assert paths[..n] + [paths[n]] == paths;
    }
  }

  /** Whatever is refused, a result holds only located paths and beginnings of their files. */
  lemma RunGivesBeginnings(v: View, plan: nat -> Outcome, at: nat, paths: seq<string>)
    ensures Beginnings(v, paths, Run(v, plan, at, paths).out)
  {
    RunConsistent(v, plan, at, paths);
    var st := Run(v, plan, at, paths);
    forall p | p in st.out
      ensures p in paths && v.target(p).Some? && st.out[p] <= v.content(v.target(p).value)
    {
      assert FromExported(v, st, paths, p);
    }
  }

  // ---- Runs in which every command does its work -------------------------------------------------------------

  /** So far exact, or stopped because the distinct files do not fit. */
  ghost predicate SmoothState(v: View, st: State, done: seq<string>) {
    if st.err.None? then Exact(v, done, st.out, st.exported)
    else st.err == Some(TooLarge) && Sum(Volumes(v, Targets(v, done))) > MAX_ARTIFACT_TOTAL
  }

  lemma SmoothStep(v: View, plan: nat -> Outcome, st: State, done: seq<string>, p: string)
    requires SmoothState(v, st, done) && st.total == Sum(Sizes(st.exported)) <= MAX_ARTIFACT_TOTAL
    requires AllDone(plan, st.at, NextState(v, plan, st, p).at)
    ensures SmoothState(v, NextState(v, plan, st, p), done + [p])
  {
    MoreVolume(v, done, p);
    if st.err.None? {
      ExactAfter(v, done, p, st.out, st.exported);
      if plan(st.at).Done? && v.target(p).Some? {
        if v.target(p).value in st.exported {
          AlreadyExact(v, done, st.out, st.exported, v.target(p).value);
        } else {
          SmoothNewStep(v, plan, st, done, p, v.target(p).value);
        }
      }
    }
  }

  lemma SmoothNewStep(v: View, plan: nat -> Outcome, st: State, done: seq<string>, p: string, t: string)
    requires Exact(v, done, st.out, st.exported) && st.err.None?
    requires st.total == Sum(Sizes(st.exported)) <= MAX_ARTIFACT_TOTAL
    requires v.target(p) == Some(t) && t !in st.exported && plan(st.at).Done?
    requires AllDone(plan, st.at, NextState(v, plan, st, p).at)
    ensures var st' := NextState(v, plan, st, p);
            if st.total + |v.content(t)| <= MAX_ARTIFACT_TOTAL
            then st'.err.None? && st'.out == st.out[p := v.content(t)] && st'.exported == st.exported[t := v.content(t)]
            else st'.err == Some(TooLarge)
                 && Sum(Volumes(v, Targets(v, done + [p]))) > MAX_ARTIFACT_TOTAL
  {
    SmoothRead(v.content(t), plan, st.at + 1, 0, st.total);
    if st.total + |v.content(t)| > MAX_ARTIFACT_TOTAL { NewDoesNotFit(v, st, done, p); }
  }

  lemma MoreVolume(v: View, done: seq<string>, p: string)
    ensures Sum(Volumes(v, Targets(v, done)))
            <= Sum(Volumes(v, Targets(v, done + [p])))
  {
    NextPath(v, done, p);
    SumOfPart(Volumes(v, Targets(v, done)),
              Volumes(v, Targets(v, done + [p])));
  }

  lemma NewDoesNotFit(v: View, st: State, done: seq<string>, p: string)
    requires Exact(v, done, st.out, st.exported) && v.target(p).Some?
    requires v.target(p).value !in st.exported
    requires Sum(Sizes(st.exported)) + |v.content(v.target(p).value)| > MAX_ARTIFACT_TOTAL
    ensures Sum(Volumes(v, Targets(v, done + [p]))) > MAX_ARTIFACT_TOTAL
  {
    NextPath(v, done, p);
    DoesNotFit(v, Targets(v, done), Targets(v, done + [p]), v.target(p).value);
  }

  lemma {:induction false} SmoothRun(v: View, plan: nat -> Outcome, at: nat, paths: seq<string>)
    requires AllDone(plan, at, Run(v, plan, at, paths).at)
    ensures SmoothState(v, Run(v, plan, at, paths), paths)
    decreases |paths|
  {
    if paths != [] {
      var n := |paths| - 1;
      var st := Run(v, plan, at, paths[..n]);
      RunExtends(v, plan, at, paths, n);
      StartsNoEarlier(v, plan, at, paths[..n]);
      SmoothRun(v, plan, at, paths[..n]);
      SmoothStep(v, plan, st, paths[..n], paths[n]);
      assert paths[..n] + [paths[n]] == paths;
    }
  }

  lemma StartsNoEarlier(v: View, plan: nat -> Outcome, at: nat, paths: seq<string>)
    ensures var st := Run(v, plan, at, paths); st.at >= at && st.total == Sum(Sizes(st.exported)) <= MAX_ARTIFACT_TOTAL
  {
    RunConsistent(v, plan, at, paths);
  }

  /** When every command does its work, the export is exact if the distinct files fit, and fails for
      their size if they do not. */
  lemma SmoothRunIsExact(v: View, plan: nat -> Outcome, at: nat, paths: seq<string>)
    requires AllDone(plan, at, Run(v, plan, at, paths).at)
    ensures var st := Run(v, plan, at, paths);
            if Sum(Volumes(v, Targets(v, paths))) <= MAX_ARTIFACT_TOTAL
            then st.err.None? && st.out == Exports(v, paths) else st.err == Some(TooLarge)
  {
    SmoothRun(v, plan, at, paths);
    RunConsistent(v, plan, at, paths);
    SizesOfContents(v, Targets(v, paths));
  }

  // ---- Exactly when the result is whole ---------------------------------------------------------------------

  /** The commands for a path: its locate command is answered, and a file first met here is read whole. */
  predicate ServedBy(v: View, plan: nat -> Outcome, st: State, p: string) {
    && !plan(st.at).Unreachable?
    && (plan(st.at).Done? && v.target(p).Some? && v.target(p).value !in st.exported ==>
          ReadsWhole(v.content(v.target(p).value), plan, st.at + 1, 0))
  }

  predicate PathServed(v: View, plan: nat -> Outcome, at: nat, paths: seq<string>, i: nat)
    requires i < |paths|
  {
    ServedBy(v, plan, Run(v, plan, at, paths[..i]), paths[i])
  }

  /** The locate command for occurrence j of a path does its work. */
  predicate FoundAt(v: View, plan: nat -> Outcome, at: nat, paths: seq<string>, j: nat)
    requires j < |paths|
  {
    plan(Run(v, plan, at, paths[..j]).at).Done?
  }

  /** Some occurrence of the path is located. */
  predicate Located(v: View, plan: nat -> Outcome, at: nat, paths: seq<string>, p: string) {
    exists j: nat | j < |paths| :: paths[j] == p && FoundAt(v, plan, at, paths, j)
  }

  predicate Served(v: View, plan: nat -> Outcome, at: nat, paths: seq<string>) {
    && (forall i: nat | i < |paths| :: PathServed(v, plan, at, paths, i))
    && (forall p | p in paths && v.target(p).Some? :: Located(v, plan, at, paths, p))
  }

  lemma FoundStep(v: View, plan: nat -> Outcome, st: State, p: string)
    requires st.err.None? && plan(st.at).Done? && v.target(p).Some? && NextState(v, plan, st, p).err.None?
    ensures p in NextState(v, plan, st, p).out
  {
  }

  lemma FoundIsInResult(v: View, plan: nat -> Outcome, at: nat, paths: seq<string>, j: nat)
    requires j < |paths| && v.target(paths[j]).Some? && FoundAt(v, plan, at, paths, j)
    requires Run(v, plan, at, paths).err.None?
    ensures paths[j] in Run(v, plan, at, paths).out
  {
    RunExtends(v, plan, at, paths, j);
    RunExtends(v, plan, at, paths, j + 1);
    RunOneMore(v, plan, at, paths, j);
    FoundStep(v, plan, Run(v, plan, at, paths[..j]), paths[j]);
  }

  lemma {:induction false} ResultIsLocated(
      v: View, plan: nat -> Outcome, at: nat, paths: seq<string>, n: nat, p: string)
    requires n <= |paths| && p in Run(v, plan, at, paths[..n]).out
    ensures Located(v, plan, at, paths, p)
    decreases n
  {
    if n > 0 {
      RunOneMore(v, plan, at, paths, n - 1);
      if p in Run(v, plan, at, paths[..n - 1]).out {
        ResultIsLocated(v, plan, at, paths, n - 1, p);
      } else {
        assert paths[n - 1] == p && FoundAt(v, plan, at, paths, n - 1);
      }
    }
  }

  /** In a whole result every exported file is whole, and they are all the targets. */
  lemma WholeResultIsExact(v: View, plan: nat -> Outcome, at: nat, paths: seq<string>)
    requires Run(v, plan, at, paths).out == Exports(v, paths)
    ensures Run(v, plan, at, paths).exported == Contents(v, Targets(v, paths))
  {
    var st := Run(v, plan, at, paths);
    RunConsistent(v, plan, at, paths);
    forall t | t in Targets(v, paths) ensures t in st.exported && st.exported[t] == v.content(t) {
      var p :| p in paths && v.target(p) == Some(t);
      assert p in st.out && FromExported(v, st, paths, p);
    }
  }

  lemma WholeStepIsServed(v: View, plan: nat -> Outcome, st: State, p: string)
    requires st.err.None? && st.total <= MAX_ARTIFACT_TOTAL
    requires var st' := NextState(v, plan, st, p);
             st'.err.None? && forall t | t in st'.exported :: st'.exported[t] == v.content(t)
    ensures ServedBy(v, plan, st, p)
  {
    if plan(st.at).Done? && v.target(p).Some? && v.target(p).value !in st.exported {
      ReadIsWholeIff(v.content(v.target(p).value), plan, st.at + 1, 0, st.total);
      assert v.target(p).value in NextState(v, plan, st, p).exported;
    }
  }

  lemma WholeResultIsServed(v: View, plan: nat -> Outcome, at: nat, paths: seq<string>, i: nat)
    requires i < |paths| && Run(v, plan, at, paths).err.None? && Run(v, plan, at, paths).out == Exports(v, paths)
    ensures PathServed(v, plan, at, paths, i)
  {
    RunExtends(v, plan, at, paths, i);
    RunExtends(v, plan, at, paths, i + 1);
    RunOneMore(v, plan, at, paths, i);
    StartsNoEarlier(v, plan, at, paths[..i]);
    WholeResultIsExact(v, plan, at, paths);
    WholeStepIsServed(v, plan, Run(v, plan, at, paths[..i]), paths[i]);
  }

  /** Without error so far, and every file read is whole and among those to be read. */
  predicate WholeSoFar(v: View, st: State, all: set<string>) {
    st.err.None? && st.exported == Contents(v, st.exported.Keys) && st.exported.Keys <= all
  }

  lemma ServedStep(v: View, plan: nat -> Outcome, st: State, p: string, all: set<string>)
    requires WholeSoFar(v, st, all) && ServedBy(v, plan, st, p)
    requires st.total == Sum(Sizes(st.exported)) <= MAX_ARTIFACT_TOTAL && Sum(Volumes(v, all)) <= MAX_ARTIFACT_TOTAL
    requires v.target(p).Some? ==> v.target(p).value in all
    ensures WholeSoFar(v, NextState(v, plan, st, p), all)
  {
    if plan(st.at).Done? && v.target(p).Some? && v.target(p).value !in st.exported {
      var t := v.target(p).value;
      if st.total + |v.content(t)| > MAX_ARTIFACT_TOTAL { DoesNotFit(v, st.exported.Keys, all, t); }
      ReadIsWholeIff(v.content(t), plan, st.at + 1, 0, st.total);
      ContentsGrow(v, st.exported.Keys, t);
    }
  }

  /** Served runs go through with whole files when all of them fit. */
  lemma {:induction false} ServedRun(v: View, plan: nat -> Outcome, at: nat, paths: seq<string>, n: nat)
    requires n <= |paths| && Sum(Volumes(v, Targets(v, paths))) <= MAX_ARTIFACT_TOTAL
    requires forall i: nat | i < n :: PathServed(v, plan, at, paths, i)
    ensures WholeSoFar(v, Run(v, plan, at, paths[..n]), Targets(v, paths))
    decreases n
  {
    if n > 0 {
      ServedRun(v, plan, at, paths, n - 1);
      RunOneMore(v, plan, at, paths, n - 1);
      StartsNoEarlier(v, plan, at, paths[..n - 1]);
      assert PathServed(v, plan, at, paths, n - 1) && paths[n - 1] in paths;
      ServedStep(v, plan, Run(v, plan, at, paths[..n - 1]), paths[n - 1], Targets(v, paths));
    }
  }

  /** An export succeeds with every located file whole, aliases and repeated paths included, exactly when
      the distinct files fit, every path is located at one of its occurrences, every locate command is
      answered, and every file's blocks are all delivered. */
  lemma ExportIsWholeIff(v: View, plan: nat -> Outcome, at: nat, paths: seq<string>)
    ensures var st := Run(v, plan, at, paths);
            st.err.None? && st.out == Exports(v, paths)
            <==> Served(v, plan, at, paths) && Sum(Volumes(v, Targets(v, paths))) <= MAX_ARTIFACT_TOTAL
  {
    var st := Run(v, plan, at, paths);
    assert paths[..|paths|] == paths;
    RunConsistent(v, plan, at, paths);
    if st.err.None? && st.out == Exports(v, paths) {
      WholeResultIsExact(v, plan, at, paths);
      SizesOfContents(v, Targets(v, paths));
      forall i: nat | i < |paths| ensures PathServed(v, plan, at, paths, i) {
        WholeResultIsServed(v, plan, at, paths, i);
      }
      forall p | p in paths && v.target(p).Some? ensures Located(v, plan, at, paths, p) {
        ResultIsLocated(v, plan, at, paths, |paths|, p);
      }
    }
    if Served(v, plan, at, paths) && Sum(Volumes(v, Targets(v, paths))) <= MAX_ARTIFACT_TOTAL {
      ServedRun(v, plan, at, paths, |paths|);
      ServedResult(v, plan, at, paths);
    }
  }

  lemma ServedResult(v: View, plan: nat -> Outcome, at: nat, paths: seq<string>)
    requires var st := Run(v, plan, at, paths); st.err.None? && st.exported == Contents(v, st.exported.Keys)
    requires forall p | p in paths && v.target(p).Some? :: Located(v, plan, at, paths, p)
    ensures Run(v, plan, at, paths).out == Exports(v, paths)
  {
    var st := Run(v, plan, at, paths);
    RunConsistent(v, plan, at, paths);
    forall p | p in paths && v.target(p).Some? ensures p in st.out {
      assert Located(v, plan, at, paths, p);
      var j: nat :| j < |paths| && paths[j] == p && FoundAt(v, plan, at, paths, j);
      FoundIsInResult(v, plan, at, paths, j);
    }
    forall p | p in st.out ensures p in Exports(v, paths) && st.out[p] == v.content(v.target(p).value) {
      assert FromExported(v, st, paths, p);
    }
  }

  // ---- Silent failures ------------------------------------------------------------------------------------------

  /** A refused locate command loses a file that exists: the export succeeds without it. */
  lemma RefusedLocateLosesTheFile(v: View, plan: nat -> Outcome, at: nat, p: string)
    requires v.target(p).Some? && plan(at).Refused?
    ensures Run(v, plan, at, [p]) == State(map[], map[], 0, at + 1, None) && p in Exports(v, [p])
  {
    RunOneMore(v, plan, at, [p], 0);
    assert [p][..1] == [p];
  }

  /** A refused block command cuts a file short: the export succeeds with the bytes that were printed. */
  lemma RefusedBlockCutsShort(v: View, plan: nat -> Outcome, at: nat, p: string, m: nat)
    requires v.target(p).Some? && m < |v.content(v.target(p).value)| && m <= MAX_ARTIFACT_TOTAL
    requires var k := m / EXPORT_CHUNK;
             && AllDone(plan, at, at + 1 + k)
             && CutAt(plan(at + 1 + k), Block(v.content(v.target(p).value), k), m - k * EXPORT_CHUNK)
    ensures var st, whole := Run(v, plan, at, [p]), v.content(v.target(p).value);
            st.err.None? && st.out == map[p := whole[..m]] && st.out != Exports(v, [p])
  {
    var whole := v.content(v.target(p).value);
    RunOneMore(v, plan, at, [p], 0);
    assert [p][..1] == [p];
    DoneIsDelivered(whole, plan, at + 1, m / EXPORT_CHUNK);
    CutShortIff(whole, plan, at + 1, 0, 0, m);
    assert |whole[..m]| < |whole|;
    assert p in [p] && Exports(v, [p])[p] == whole;
  }

  lemma DoneIsDelivered(whole: Bytes, plan: nat -> Outcome, at: nat, k: nat)
    requires AllDone(plan, at, at + k)
    ensures AllDelivered(whole, plan, at, 0, k)
  {
    forall n: nat | n < k ensures Delivered(whole, plan, at, n) { assert plan(at + n).Done?; }
  }
}
