/** The attachment queue and the token estimator: which files are queued, what the queue promises
    after any sequence of operations, and how far its budget and the estimator's can differ. */
module Attachments {
  import opened Text

  const MAX_IMAGE_SIZE: nat := 4 * 1024 * 1024
  const MAX_PDF_SIZE: nat := 6 * 1024 * 1024
  const MAX_TOTAL_TOKENS: nat := 32000
  const CHARS_PER_TOKEN: nat := 4
  const MAX_COUNT: nat := 6
  const IMAGE_TOKENS: nat := 1024
  const MESSAGE_OVERHEAD: nat := 4

  /** The values of `std::size_t`, and the strings whose size is one. */
  type Size = n: int | 0 <= n < 0x1_0000_0000_0000_0000
  type Content = s: string | |s| < 0x1_0000_0000_0000_0000

  datatype AttachmentType = TextDocument | Image

  datatype IngestionError =
    | FileNotFound | MaxLimitReached | ReadFault | ImageTooLarge | DocumentTooLarge | ParsingFailed | ContextOverflow

  datatype AttachmentInfo =
    AttachmentInfo(path: string, name: string, kind: AttachmentType, bytes: nat, tokens: Size, text: Option<Content>)

  /** What the file system and the document parsers say about a path. */
  datatype Parsed = NoParser | Failed | Extracted(text: Content)

  datatype File = File(path: string, name: string, extension: string, present: bool, bytes: Option<nat>, parsed: Parsed)

  function Lower(s: string): string {
    if s == "" then ""
    else [if 'A' <= s[0] <= 'Z' then s[0] + ('a' - 'A') else s[0]] + Lower(s[1..])
  }

  function Classify(extension: string): AttachmentType {
    var lower := Lower(extension);
    if lower == ".png" || lower == ".jpg" || lower == ".jpeg" || lower == ".webp" then Image else TextDocument
  }

  /** What a file counts for: an image a constant, a document a quarter of its extracted text. */
  function Estimate(f: File): Size {
    if Classify(f.extension) == TextDocument && f.parsed.Extracted? then |f.parsed.text| / CHARS_PER_TOKEN
    else IMAGE_TOKENS
  }

  function Entry(f: File): AttachmentInfo
    requires f.bytes.Some?
  {
    var kind := Classify(f.extension);
    AttachmentInfo(f.path, f.name, kind, f.bytes.value, Estimate(f),
                   if kind == TextDocument && f.parsed.Extracted? then Some(f.parsed.text) else None)
  }

  function Total(queue: seq<AttachmentInfo>): nat {
    if queue == [] then 0 else queue[0].tokens + Total(queue[1..])
  }

  // ----- what is refused, and why -----

  /** The reasons to refuse a file, each on its own. */
  predicate Offends(queue: seq<AttachmentInfo>, f: File, e: IngestionError) {
    var kind := Classify(f.extension);
    match e
    case FileNotFound => !f.present
    case MaxLimitReached => |queue| >= MAX_COUNT
    case ReadFault => f.bytes.None?
    case ImageTooLarge => kind == Image && f.bytes.Some? && f.bytes.value > MAX_IMAGE_SIZE
    case DocumentTooLarge => Lower(f.extension) == ".pdf" && f.bytes.Some? && f.bytes.value > MAX_PDF_SIZE
    case ParsingFailed => kind == TextDocument && !f.parsed.Extracted?
    case ContextOverflow => Estimate(f) + Total(queue) > MAX_TOTAL_TOKENS
  }

  /** The order in which the reasons are looked at. */
  function Rank(e: IngestionError): nat {
    match e
    case FileNotFound => 0
    case MaxLimitReached => 1
    case ReadFault => 2
    case ImageTooLarge => 3
    case DocumentTooLarge => 4
    case ParsingFailed => 5
    case ContextOverflow => 6
  }

  ghost predicate Acceptable(queue: seq<AttachmentInfo>, f: File) {
    forall e :: !Offends(queue, f, e)
  }

  /** The first of the reasons that apply. */
  ghost predicate FirstOffence(queue: seq<AttachmentInfo>, f: File, e: IngestionError) {
    Offends(queue, f, e) && forall e' :: Rank(e') < Rank(e) ==> !Offends(queue, f, e')
  }

  // ----- what the queue promises -----

  predicate Sound(a: AttachmentInfo) {
    match a.kind
    case TextDocument => a.text.Some? && a.tokens == |a.text.value| / CHARS_PER_TOKEN
    case Image => a.text.None? && a.tokens == IMAGE_TOKENS
  }

  ghost predicate Within(queue: seq<AttachmentInfo>) {
    && |queue| <= MAX_COUNT && Total(queue) <= MAX_TOTAL_TOKENS
    && forall a :: a in queue ==> Sound(a)
  }

  datatype Op = Add(file: File) | Remove(index: nat) | Clear

  ghost function Apply(queue: seq<AttachmentInfo>, op: Op): seq<AttachmentInfo> {
    match op
    case Add(f) => if Acceptable(queue, f) then Added(queue, f) else queue
    case Remove(i) => Removed(queue, i)
    case Clear => []
  }

  ghost function Added(queue: seq<AttachmentInfo>, f: File): seq<AttachmentInfo>
    requires Acceptable(queue, f)
  {
    assert !Offends(queue, f, ReadFault);
    queue + [Entry(f)]
  }

  function Removed<T>(queue: seq<T>, i: nat): seq<T> {
    if i < |queue| then queue[..i] + queue[i + 1..] else queue
  }

  ghost function ApplyAll(queue: seq<AttachmentInfo>, ops: seq<Op>): seq<AttachmentInfo>
    decreases |ops|
  {
    if ops == [] then queue else ApplyAll(Apply(queue, ops[0]), ops[1..])
  }

  lemma {:induction false} TotalAppend(a: seq<AttachmentInfo>, b: seq<AttachmentInfo>)
    ensures Total(a + b) == Total(a) + Total(b)
  {
    if a == [] {
      assert a + b == b;
    } else {
      assert (a + b)[1..] == a[1..] + b;
      TotalAppend(a[1..], b);
    }
  }

  lemma AddedWithin(queue: seq<AttachmentInfo>, f: File)
    requires Within(queue) && Acceptable(queue, f)
    ensures Within(Added(queue, f))
  {
    assert !Offends(queue, f, ReadFault) && !Offends(queue, f, MaxLimitReached);
    assert !Offends(queue, f, ParsingFailed) && !Offends(queue, f, ContextOverflow);
    var x := Entry(f);
    assert Sound(x) && x.tokens == Estimate(f);
    hide Acceptable, Classify, Sound, Offends;
    TotalAppend(queue, [x]);
    assert Total([x]) == x.tokens + Total([]);
  }

  lemma RemovedWithin(queue: seq<AttachmentInfo>, i: nat)
    requires Within(queue)
    ensures Within(Removed(queue, i))
  {
    if i < |queue| {
      var front, back := queue[..i], queue[i + 1..];
      assert queue == front + ([queue[i]] + back);
      TotalAppend(front, [queue[i]] + back);
      TotalAppend([queue[i]], back);
      TotalAppend(front, back);
    }
  }

  /** After any sequence of additions, removals and clearings, whatever the files and the parsers
      are like: at most six attachments, within the budget, each estimated from its cached text. */
  lemma {:induction false} AlwaysWithin(queue: seq<AttachmentInfo>, ops: seq<Op>)
    requires Within(queue)
    ensures Within(ApplyAll(queue, ops))
    decreases |ops|
  {
    if ops != [] {
      hide Within, Acceptable;
      var op := ops[0];
      match op {
        case Add(f) =>
          if Acceptable(queue, f) {
            AddedWithin(queue, f);
          }
        case Remove(i) => RemovedWithin(queue, i);
        case Clear => EmptyWithin();
      }
      AlwaysWithin(Apply(queue, op), ops[1..]);
    }
  }

  lemma EmptyWithin()
    ensures Within([])
  {
  }

  // ----- the class -----

  class AttachmentManager {
    var pending: seq<AttachmentInfo>

    ghost predicate Valid()
      reads this
    {
      Within(pending)
    }

    constructor ()
      ensures Valid() && pending == []
    {
      pending := [];
    }

    /** The running total, on `std::size_t`: the queue's bound keeps it from wrapping. */
    method RunningTotal(estimated: Size) returns (total: Size)
      requires Valid() && estimated < 0x4000_0000_0000_0000
      ensures total == estimated + Total(pending)
    {
      total := estimated;
      var i := 0;
      assert pending[..0] == [] && pending[..|pending|] == pending;
      while i < |pending|
        invariant i <= |pending| && total == estimated + Total(pending[..i])
        invariant Total(pending[..i]) + Total(pending[i..]) == Total(pending)
      {
        TotalAppend(pending[..i], [pending[i]]);
        assert pending[..i] + [pending[i]] == pending[..i + 1] && pending[i..][1..] == pending[i + 1..];
        assert Total([pending[i]]) == pending[i].tokens + Total([]);
        total := (total + pending[i].tokens) % 0x1_0000_0000_0000_0000;
        i := i + 1;
      }
    }

    /** A file is queued unless something speaks against it; the first reason is reported, and
        then the queue is as before. */
    method AnalyzeAndAdd(f: File) returns (error: Option<IngestionError>)
      requires Valid()
      modifies this
      ensures Valid()
      ensures error.None? <==> Acceptable(old(pending), f)
      ensures pending == Apply(old(pending), Add(f))
      ensures error.Some? ==> FirstOffence(old(pending), f, error.value) && pending == old(pending)
    {
      hide Classify;
      if !f.present {
        assert Offends(pending, f, FileNotFound);
        return Some(FileNotFound);
      }
      if |pending| >= MAX_COUNT {
        assert Offends(pending, f, MaxLimitReached);
        return Some(MaxLimitReached);
      }
      if f.bytes.None? {
        assert Offends(pending, f, ReadFault);
        return Some(ReadFault);
      }
      var size := f.bytes.value;
      var lower := Lower(f.extension);
      var kind := Classify(f.extension);
      if kind == Image && size > MAX_IMAGE_SIZE {
        assert Offends(pending, f, ImageTooLarge);
        return Some(ImageTooLarge);
      }
      if lower == ".pdf" && size > MAX_PDF_SIZE {
        assert Offends(pending, f, DocumentTooLarge);
        return Some(DocumentTooLarge);
      }
      var estimated: Size := IMAGE_TOKENS;
      var cached: Option<Content> := None;
      if kind == TextDocument {
        if !f.parsed.Extracted? {
          assert Offends(pending, f, ParsingFailed);
          return Some(ParsingFailed);
        }
        estimated := |f.parsed.text| / CHARS_PER_TOKEN;
        cached := Some(f.parsed.text);
      }
      var total := RunningTotal(estimated);
      if total > MAX_TOTAL_TOKENS {
        assert Offends(pending, f, ContextOverflow);
        return Some(ContextOverflow);
      }
      AddedWithin(pending, f);
      pending := pending + [AttachmentInfo(f.path, f.name, kind, size, estimated, cached)];
      return None;
    }

    method RemoveByIndex(i: nat)
      requires Valid()
      modifies this
      ensures Valid() && pending == Apply(old(pending), Remove(i))
    {
      RemovedWithin(pending, i);
      if i < |pending| {
        pending := pending[..i] + pending[i + 1..];
      }
    }

    method ClearQueue()
      modifies this
      ensures Valid() && pending == Apply(old(pending), Clear)
    {
      pending := [];
    }
  }

  // ----- the estimator -----

  /** Nothing for an empty text, and at least one token for any other. */
  function TextTokens(text: string): nat {
    if text == "" then 0 else if |text| / CHARS_PER_TOKEN < 1 then 1 else |text| / CHARS_PER_TOKEN
  }

  function HistoryTokens(history: seq<string>): nat {
    if history == [] then 0 else TextTokens(history[0]) + MESSAGE_OVERHEAD + HistoryTokens(history[1..])
  }

  /** What the estimator counts for the queue: texts only. */
  function QueueTokens(queue: seq<AttachmentInfo>): nat {
    if queue == [] then 0
    else (if queue[0].kind == TextDocument && queue[0].text.Some? then TextTokens(queue[0].text.value) else 0)
         + QueueTokens(queue[1..])
  }

  lemma {:induction false} HistoryAppend(a: seq<string>, b: seq<string>)
    ensures HistoryTokens(a + b) == HistoryTokens(a) + HistoryTokens(b)
  {
    if a == [] {
      assert a + b == b;
    } else {
      assert (a + b)[1..] == a[1..] + b;
      HistoryAppend(a[1..], b);
    }
  }

  lemma {:induction false} QueueAppend(a: seq<AttachmentInfo>, b: seq<AttachmentInfo>)
    ensures QueueTokens(a + b) == QueueTokens(a) + QueueTokens(b)
  {
    if a == [] {
      assert a + b == b;
    } else {
      assert (a + b)[1..] == a[1..] + b;
      QueueAppend(a[1..], b);
    }
  }

  /** `ExtractTextContent`: a lookup of what was cached when the file was queued. */
  function ExtractTextContent(a: AttachmentInfo): Option<Content> {
    a.text
  }

  /** The sum that the estimator is after. */
  function PayloadTokens(prompt: string, queue: seq<AttachmentInfo>, history: seq<string>): nat {
    HistoryTokens(history) + QueueTokens(queue) + TextTokens(prompt)
  }

  const SIZES: nat := 0x1_0000_0000_0000_0000

  /** Addition on `std::size_t`. */
  function Plus(a: Size, b: nat): Size {
    (a + b) % SIZES
  }

  lemma PlusSum(sum: nat, b: nat)
    ensures Plus(sum % SIZES, b) == (sum + b) % SIZES
  {
    var k := sum / SIZES;
    assert sum == k * SIZES + sum % SIZES;
    assert sum + b == k * SIZES + (sum % SIZES + b);
  }

  /** The loops compute the sum on `std::size_t`, which is the sum itself exactly while that is a
      size. */
  method EstimatePayloadTokens(prompt: string, queue: seq<AttachmentInfo>, history: seq<string>) returns (total: Size)
    ensures total == PayloadTokens(prompt, queue, history) % SIZES
    ensures total == PayloadTokens(prompt, queue, history) <==> PayloadTokens(prompt, queue, history) < SIZES
  {
    hide TextTokens, Plus;
    total := 0;
    var i := 0;
    while i < |history|
      invariant i <= |history| && total == HistoryTokens(history[..i]) % SIZES
    {
      HistoryAppend(history[..i], [history[i]]);
      assert history[..i + 1] == history[..i] + [history[i]];
      assert [history[i]][1..] == [];
      PlusSum(HistoryTokens(history[..i]), TextTokens(history[i]) + MESSAGE_OVERHEAD);
      total := Plus(total, TextTokens(history[i]) + MESSAGE_OVERHEAD);
      i := i + 1;
    }
    assert history[..i] == history;
    ghost var before := HistoryTokens(history);
    i := 0;
    while i < |queue|
      invariant i <= |queue| && total == (before + QueueTokens(queue[..i])) % SIZES
    {
      QueueAppend(queue[..i], [queue[i]]);
      assert queue[..i + 1] == queue[..i] + [queue[i]];
      assert QueueTokens([queue[i]][1..]) == 0;
      if queue[i].kind == TextDocument {
        var content := ExtractTextContent(queue[i]);
        if content.Some? {
          PlusSum(before + QueueTokens(queue[..i]), TextTokens(content.value));
          total := Plus(total, TextTokens(content.value));
        }
      }
      i := i + 1;
    }
    assert queue[..i] == queue;
    PlusSum(before + QueueTokens(queue), TextTokens(prompt));
    total := Plus(total, TextTokens(prompt));
  }

  // ----- the queue's budget and the estimator's -----

  /** A text of one to three characters counts nothing in the queue, but one token when sent. */
  predicate Tiny(a: AttachmentInfo) {
    a.text.Some? && 0 < |a.text.value| < CHARS_PER_TOKEN
  }

  function TinyCount(queue: seq<AttachmentInfo>): nat {
    if queue == [] then 0 else (if Tiny(queue[0]) then 1 else 0) + TinyCount(queue[1..])
  }

  function ImageTotal(queue: seq<AttachmentInfo>): nat {
    if queue == [] then 0 else (if queue[0].kind == Image then IMAGE_TOKENS else 0) + ImageTotal(queue[1..])
  }

  /** How the two totals differ, exactly: images count in the queue only, and tiny texts in the
      estimator only. */
  lemma {:induction false} TotalsDiffer(queue: seq<AttachmentInfo>)
    requires forall a :: a in queue ==> Sound(a)
    ensures QueueTokens(queue) + ImageTotal(queue) == Total(queue) + TinyCount(queue)
  {
    if queue != [] {
      var a := queue[0];
      assert Sound(a);
      TotalsDiffer(queue[1..]);
    }
  }

  /** Tiny texts count nothing, so if the whole queue is tiny the total is nothing. */
  lemma {:induction false} TinyBound(queue: seq<AttachmentInfo>)
    requires forall a :: a in queue ==> Sound(a)
    ensures TinyCount(queue) <= |queue|
    ensures TinyCount(queue) == |queue| ==> Total(queue) == 0
  {
    if queue != [] {
      assert Sound(queue[0]);
      TinyBound(queue[1..]);
    }
  }

  /** What the estimator makes of any queue that the operations can produce. */
  lemma EstimatorBound(ops: seq<Op>)
    ensures QueueTokens(ApplyAll([], ops)) <= 32005
  {
    EmptyWithin();
    AlwaysWithin([], ops);
    var queue := ApplyAll([], ops);
    TotalsDiffer(queue);
    TinyBound(queue);
  }

  /** A text document with a given content. */
  function Plain(text: Content): File {
    File("", "", ".txt", true, Some(0), Extracted(text))
  }

  lemma AddPlain(queue: seq<AttachmentInfo>, text: Content)
    requires |queue| < MAX_COUNT && |text| / CHARS_PER_TOKEN + Total(queue) <= MAX_TOTAL_TOKENS
    ensures var after := Apply(queue, Add(Plain(text)));
            && |after| == |queue| + 1 && Total(after) == Total(queue) + |text| / CHARS_PER_TOKEN
            && QueueTokens(after) == QueueTokens(queue) + TextTokens(text)
  {
    var f := Plain(text);
    assert Lower(".txt") == ".txt";
    assert forall e :: !Offends(queue, f, e);
    var x := Entry(f);
    TotalAppend(queue, [x]);
    QueueAppend(queue, [x]);
    hide TextTokens;
    assert [x][1..] == [];
  }

  function Repeat(n: nat, op: Op): seq<Op> {
    if n == 0 then [] else [op] + Repeat(n - 1, op)
  }

  lemma {:induction false} AddTiny(queue: seq<AttachmentInfo>, n: nat, text: Content)
    requires |queue| + n <= MAX_COUNT && Total(queue) <= MAX_TOTAL_TOKENS && |text| == 1
    ensures QueueTokens(ApplyAll(queue, Repeat(n, Add(Plain(text))))) == QueueTokens(queue) + n
    decreases n
  {
    if n > 0 {
      AddPlain(queue, text);
      var op := Add(Plain(text));
      AddTiny(Apply(queue, op), n - 1, text);
      assert Repeat(n, op)[1..] == Repeat(n - 1, op);
    }
  }

  /** The bound is met: one text of 128000 characters, and five of one. */
  lemma BoundIsMet(long: Content, short: Content)
    requires |long| == 128000 && |short| == 1
    ensures var ops := [Add(Plain(long))] + Repeat(5, Add(Plain(short)));
            QueueTokens(ApplyAll([], ops)) == 32005
  {
    var op := Add(Plain(long));
    AddPlain([], long);
    AddTiny(Apply([], op), 5, short);
    assert ([op] + Repeat(5, Add(Plain(short))))[1..] == Repeat(5, Add(Plain(short)));
  }

  // ----- which files are images, and what is queued of a file -----

  /** A letter, whatever its case, against a small one. */
  predicate SameLetter(c: char, lower: char) {
    c == lower || ('A' <= c <= 'Z' && c as int + 32 == lower as int)
  }

  /** The same letters, whatever their case. */
  predicate SameLetters(s: string, lower: string) {
    && |s| == |lower|
    && forall i :: 0 <= i < |s| ==> SameLetter(s[i], lower[i])
  }

  predicate NoCapitals(s: string) {
    forall i :: 0 <= i < |s| ==> !('A' <= s[i] <= 'Z')
  }

  lemma {:induction false} LowerAt(s: string)
    ensures |Lower(s)| == |s|
    ensures forall i :: 0 <= i < |s| ==> Lower(s)[i] == if 'A' <= s[i] <= 'Z' then s[i] + ('a' - 'A') else s[i]
  {
    if s != "" {
      LowerAt(s[1..]);
    }
  }

  lemma LowerIs(s: string, lower: string)
    requires NoCapitals(lower)
    ensures Lower(s) == lower <==> SameLetters(s, lower)
  {
    LowerAt(s);
    hide Lower;
    if |s| == |lower| {
      assert forall i :: 0 <= i < |s| ==> (SameLetter(s[i], lower[i]) <==> Lower(s)[i] == lower[i]);
    }
  }

  /** Images are the files with one of four extensions, in any case of letters. */
  lemma ImageExtensions(extension: string)
    ensures Classify(extension) == Image <==>
            || SameLetters(extension, ".png") || SameLetters(extension, ".jpg")
            || SameLetters(extension, ".jpeg") || SameLetters(extension, ".webp")
  {
    LowerIs(extension, ".png");
    LowerIs(extension, ".jpg");
    LowerIs(extension, ".jpeg");
    LowerIs(extension, ".webp");
    hide Lower, SameLetters;
  }

  /** Which reason is reported: the first that applies, in this order, with the limits in bytes, entries and
      tokens. */
  lemma ReasonIs(queue: seq<AttachmentInfo>, f: File, e: IngestionError)
    requires FirstOffence(queue, f, e)
    ensures e ==
            if !f.present then FileNotFound
            else if |queue| >= 6 then MaxLimitReached
            else if f.bytes.None? then ReadFault
            else if Classify(f.extension) == Image && f.bytes.value > 4194304 then ImageTooLarge
            else if SameLetters(f.extension, ".pdf") && f.bytes.value > 6291456 then DocumentTooLarge
            else if Classify(f.extension) == TextDocument && !f.parsed.Extracted? then ParsingFailed
            else ContextOverflow
    ensures e == ContextOverflow ==> Estimate(f) + Total(queue) > 32000
  {
    LowerIs(f.extension, ".pdf");
    hide Lower, SameLetters, Classify, Estimate;
    assert Rank(FileNotFound) < Rank(MaxLimitReached) < Rank(ReadFault) < Rank(ImageTooLarge);
    assert Rank(ImageTooLarge) < Rank(DocumentTooLarge) < Rank(ParsingFailed) < Rank(ContextOverflow);
  }

  /** What is queued of an accepted file: everything known of it, an image with a fixed estimate and no
      text, a document with its text and a quarter of its length. */
  lemma QueuedIs(queue: seq<AttachmentInfo>, f: File)
    requires Acceptable(queue, f)
    ensures f.bytes.Some? && (Classify(f.extension) == TextDocument ==> f.parsed.Extracted?)
    ensures Apply(queue, Add(f)) == queue +
            [if Classify(f.extension) == Image then
               AttachmentInfo(f.path, f.name, Image, f.bytes.value, 1024, None)
             else
               AttachmentInfo(f.path, f.name, TextDocument, f.bytes.value,
                              |f.parsed.text| / 4, Some(f.parsed.text))]
  {
    assert !Offends(queue, f, ReadFault) && !Offends(queue, f, ParsingFailed);
    hide Classify, Acceptable;
  }

  /** A message of the history costs four tokens besides those of its text. */
  lemma MessageTokens(history: seq<string>, text: string)
    ensures HistoryTokens(history + [text]) ==
            HistoryTokens(history) + 4 + if text == "" then 0 else if |text| < 4 then 1 else |text| / 4
  {
    HistoryAppend(history, [text]);
    assert [text][1..] == [];
    assert HistoryTokens([text]) == TextTokens(text) + MESSAGE_OVERHEAD + HistoryTokens([]);
  }

  /** Removing takes out the entry at the index and closes the gap; clearing leaves nothing. */
  lemma RemovedIs(queue: seq<AttachmentInfo>, i: nat)
    ensures var r := Apply(queue, Remove(i));
            if i < |queue| then
              |r| == |queue| - 1 && forall j :: 0 <= j < |r| ==> r[j] == queue[if j < i then j else j + 1]
            else r == queue
    ensures Apply(queue, Clear) == []
  {
  }

  /** A payload is made up of history, queue and prompt, each counted on its own. */
  lemma PayloadParts(prompt: string, queue: seq<AttachmentInfo>, history: seq<string>)
    ensures PayloadTokens(prompt, queue, history) ==
            PayloadTokens(prompt, [], []) + PayloadTokens("", queue, []) + PayloadTokens("", [], history)
    ensures PayloadTokens(prompt, [], []) == if prompt == "" then 0 else if |prompt| < 4 then 1 else |prompt| / 4
    ensures PayloadTokens("", queue, []) == QueueTokens(queue)
    ensures PayloadTokens("", [], history) == HistoryTokens(history)
  {
  }
}
