/** Three decoders read the same keyboard bytes: the server's parser, the client's
    predictor and its prompt. Each is proved against one splitter of the byte
    stream, so they always agree where a sequence or a paste begins and ends. */
module InputDecoders {
  import opened Display

  const ESC: Byte := 0x1b
  const MAX_SEQUENCE: nat := 512
  const UTF_MAX: nat := 4
  const MAX_PASTE: nat := 8388608
  const MAX_PROMPT_TEXT: nat := 65536
  const PASTE_START: seq<Byte> := [0x1b, 0x5b, 0x32, 0x30, 0x30, 0x7e]
  const PASTE_END: seq<Byte> := [0x1b, 0x5b, 0x32, 0x30, 0x31, 0x7e]
  const END_LENGTH: nat := 6

  predicate SequenceFinal(b: Byte) { 0x40 <= b <= 0x7e }

  function LastSix(w: seq<Byte>): (tail: seq<Byte>)
    ensures |tail| <= END_LENGTH
  {
    if |w| <= END_LENGTH then w else w[|w| - END_LENGTH..]
  }

  predicate Ended(w: seq<Byte>) { LastSix(w) == PASTE_END }

  // ------------------------------------------------------------- the splitter

  /** What the stream is in the middle of. */
  datatype Splitter =
    | Ground
    | Escape
    | Csi(pending: seq<Byte>)
    | Discard
    | Third
    | RuneTail(pending: seq<Byte>)
    | Pasting(text: seq<Byte>)

  datatype Token =
    | Plain(b: Byte)
    | AfterEscape(b: Byte)
    | Ss3(b: Byte)
    | Control(raw: seq<Byte>)
    | Overlong
    | RuneBytes(raw: seq<Byte>)
    | PasteStart
    | Pasted(text: seq<Byte>)

  /** UTF-8 itself is given: whether bytes are a full encoding. */
  type FullRune = seq<Byte> -> bool

  datatype Advance = Advance(state: Splitter, tokens: seq<Token>)

  function Next(s: Splitter, b: Byte, full: FullRune): Advance {
    if b == ESC && !s.Pasting? then Advance(Escape, [])
    else match s
      case Ground => if b < 0x80 then Advance(Ground, [Plain(b)]) else Advance(RuneTail([b]), [])
      case Escape =>
        if b == 0x5b then Advance(Csi([ESC, b]), [])
        else if b == 0x4f then Advance(Third, [])
        else Advance(Ground, [AfterEscape(b)])
      case Csi(pending) =>
        var raw := pending + [b];
        if |raw| > MAX_SEQUENCE then Advance(if SequenceFinal(b) then Ground else Discard, [Overlong])
        else if !SequenceFinal(b) then Advance(Csi(raw), [])
        else if raw == PASTE_START then Advance(Pasting([]), [PasteStart])
        else Advance(Ground, [Control(raw)])
      case Discard => Advance(if SequenceFinal(b) then Ground else Discard, [])
      case Third => Advance(Ground, [Ss3(b)])
      case RuneTail(pending) =>
        var raw := pending + [b];
        if !full(raw) && |raw| < UTF_MAX then Advance(RuneTail(raw), []) else Advance(Ground, [RuneBytes(raw)])
      case Pasting(text) =>
        var all := text + [b];
        if Ended(all) then Advance(Ground, [Pasted(all[..|all| - END_LENGTH])]) else Advance(Pasting(all), [])
  }

  function Split(s: Splitter, data: seq<Byte>, full: FullRune): Advance
    decreases |data|
  {
    if data == [] then Advance(s, [])
    else
      var before := Split(s, data[..|data| - 1], full);
      var last := Next(before.state, data[|data| - 1], full);
      Advance(last.state, before.tokens + last.tokens)
  }

  /** An idle source ends a lone escape. */
  function Flushed(s: Splitter): Splitter {
    if s.Escape? then Ground else s
  }

  lemma {:induction false} SplitNext(s: Splitter, data: seq<Byte>, i: nat, full: FullRune)
    requires i < |data|
    ensures var before, last := Split(s, data[..i], full), Next(Split(s, data[..i], full).state, data[i], full);
            Split(s, data[..i + 1], full) == Advance(last.state, before.tokens + last.tokens)
  {
    assert data[..i + 1][..i] == data[..i];
  }

  /** Where the stream is cut into chunks does not matter. */
  lemma {:induction false} SplitChunks(s: Splitter, a: seq<Byte>, b: seq<Byte>, full: FullRune)
    ensures var first, second := Split(s, a, full), Split(Split(s, a, full).state, b, full);
            Split(s, a + b, full) == Advance(second.state, first.tokens + second.tokens)
    decreases |b|
  {
    hide Next;
    if b == [] {
      assert a + b == a;
    } else {
      assert (a + b)[..|a + b| - 1] == a + b[..|b| - 1];
      SplitChunks(s, a, b[..|b| - 1], full);
    }
  }

  lemma {:induction false} StillPasting(stream: seq<Byte>, full: FullRune, k: nat)
    requires k < |stream| && forall n :: 0 <= n < |stream| ==> !Ended(stream[..n])
    ensures Split(Pasting([]), stream[..k], full) == Advance(Pasting(stream[..k]), [])
    decreases k
  {
    hide Ended, Split;
    if k > 0 {
      StillPasting(stream, full, k - 1);
      SplitNext(Pasting([]), stream, k - 1, full);
      assert stream[..k] == stream[..k - 1] + [stream[k - 1]];
    } else {
      NothingSplit(Pasting([]), stream, full);
    }
  }

  lemma {:induction false} NothingSplit(s: Splitter, data: seq<Byte>, full: FullRune)
    ensures Split(s, data[..0], full) == Advance(s, [])
  {
  }

  /** A bracketed paste comes out byte for byte, whatever it holds, as long as its
      end marker is the first one. */
  lemma {:induction false} PasteDelivered(text: seq<Byte>, full: FullRune)
    requires forall n :: 0 <= n < |text + PASTE_END| ==> !Ended((text + PASTE_END)[..n])
    ensures Split(Pasting([]), text + PASTE_END, full) == Advance(Ground, [Pasted(text)])
  {
    hide Ended, Split, LastSix;
    var stream := text + PASTE_END;
    StillPasting(stream, full, |stream| - 1);
    SplitNext(Pasting([]), stream, |stream| - 1, full);
    assert stream[..|stream|] == stream;
    assert stream == stream[..|stream| - 1] + [stream[|stream| - 1]];
    MarkerLast(text);
  }

  lemma {:induction false} MarkerLast(text: seq<Byte>)
    ensures Ended(text + PASTE_END) && (text + PASTE_END)[..|text + PASTE_END| - END_LENGTH] == text
  {
  }

  // ------------------------------------------------------ what decoders keep

  datatype DecodeState = DGround | DEscape | DCsi | DCsiDiscard | DSs3 | DUtf8 | DPaste

  function StateOf(s: Splitter): DecodeState {
    match s
    case Ground => DGround
    case Escape => DEscape
    case Csi(_) => DCsi
    case Discard => DCsiDiscard
    case Third => DSs3
    case RuneTail(_) => DUtf8
    case Pasting(_) => DPaste
  }

  /** The pending bytes outside a paste. */
  function PendingOf(s: Splitter): seq<Byte> {
    match s
    case Escape => [ESC]
    case Csi(pending) => pending
    case Third => [ESC, 0x4f]
    case RuneTail(pending) => pending
    case _ => []
  }

  /** A paste kept whole up to a limit, then only its last six bytes. */
  predicate KeepsPaste(paste: seq<Byte>, overflow: bool, text: seq<Byte>, limit: nat) {
    && (overflow <==> |text| > limit)
    && paste == if overflow then LastSix(text) else text
  }

  lemma {:induction false} TailOfTail(w: seq<Byte>, b: Byte)
    ensures LastSix(LastSix(w) + [b]) == LastSix(w + [b])
  {
    if |w| > END_LENGTH {
      assert (w + [b])[|w| + 1 - END_LENGTH..] == (LastSix(w) + [b])[1..];
    }
  }

  /** One more byte of a paste under a limit of at least the marker's length. */
  lemma {:induction false} PasteByte(paste: seq<Byte>, overflow: bool, text: seq<Byte>, limit: nat, b: Byte)
    requires KeepsPaste(paste, overflow, text, limit) && limit > END_LENGTH
    ensures var grown := paste + [b];
            var over := overflow || |grown| > limit;
            var kept := if !over then grown else LastSix(grown);
            && KeepsPaste(kept, over, text + [b], limit)
            && LastSix(kept) == LastSix(text + [b])
            && (!over ==> kept == text + [b])
            && (overflow ==> |grown| > END_LENGTH)
  {
    TailOfTail(text, b);
  }

  // ------------------------------------------------------------ the server's

  datatype ServerEvent = Key(raw: seq<Byte>) | PasteStarted | PasteDone(payload: seq<Byte>, discarded: bool)

  /** Which complete sequences are keys is given. */
  type Decodes = seq<Byte> -> bool

  function ServerEvents(token: Token, full: FullRune, decodes: Decodes): seq<ServerEvent> {
    match token
    case Plain(b) => [Key([b])]
    case AfterEscape(b) => [Key([ESC, b])]
    case Ss3(b) => if decodes([ESC, 0x4f, b]) then [Key([ESC, 0x4f, b])] else []
    case Control(raw) => if decodes(raw) then [Key(raw)] else []
    case Overlong => []
    case RuneBytes(raw) => if full(raw) && decodes(raw) then [Key(raw)] else []
    case PasteStart => [PasteStarted]
    case Pasted(text) =>
      var over := |text| + END_LENGTH > MAX_PASTE;
      [PasteDone(if over then [] else text, over)]
  }

  function AllServerEvents(tokens: seq<Token>, full: FullRune, decodes: Decodes): seq<ServerEvent> {
    if tokens == [] then []
    else AllServerEvents(tokens[..|tokens| - 1], full, decodes) + ServerEvents(tokens[|tokens| - 1], full, decodes)
  }

  lemma {:induction false} ServerEventsAppend(a: seq<Token>, b: seq<Token>, full: FullRune, decodes: Decodes)
    requires |b| <= 1
    ensures AllServerEvents(a + b, full, decodes) ==
            AllServerEvents(a, full, decodes) + if b == [] then [] else ServerEvents(b[0], full, decodes)
  {
    if b == [] {
      assert a + b == a;
    } else {
      assert (a + b)[..|a|] == a;
    }
  }

  /** `frontendInputParser`. */
  class FrontendInputParser {
    var state: DecodeState
    var pending: seq<Byte>
    var paste: seq<Byte>
    var pasteOverflow: bool
    const full: FullRune
    const decodes: Decodes
    /** Where the stream is; the fields follow it. */
    ghost var stream: Splitter

    ghost predicate Valid()
      reads this
    {
      && state == StateOf(stream) && pending == PendingOf(stream)
      && if stream.Pasting? then KeepsPaste(paste, pasteOverflow, stream.text, MAX_PASTE) else paste == [] && !pasteOverflow
    }

    constructor (full: FullRune, decodes: Decodes)
      ensures Valid() && stream == Ground && this.full == full && this.decodes == decodes
    {
      state, pending, paste, pasteOverflow, stream := DGround, [], [], false, Ground;
      this.full, this.decodes := full, decodes;
    }

    method Reset()
      modifies this
      ensures Valid() && stream == Ground
    {
      state, pending, paste, pasteOverflow, stream := DGround, [], [], false, Ground;
    }

    /** Parses exactly the splitter's tokens. */
    method Feed(data: seq<Byte>) returns (events: seq<ServerEvent>)
      requires Valid()
      modifies this
      ensures Valid() && stream == Split(old(stream), data, full).state
      ensures events == AllServerEvents(Split(old(stream), data, full).tokens, full, decodes)
    {
      hide Split, Next, AllServerEvents;
      events := [];
      ghost var start := stream;
      NothingSplit(start, data, full);
      assert AllServerEvents([], full, decodes) == [] by { NoServerEvents(full, decodes); }
      var i := 0;
      while i < |data|
        invariant 0 <= i <= |data| && Valid()
        invariant stream == Split(start, data[..i], full).state
        invariant events == AllServerEvents(Split(start, data[..i], full).tokens, full, decodes)
      {
        SplitNext(start, data, i, full);
        OneToken(stream, data[i], full);
        ServerEventsAppend(Split(start, data[..i], full).tokens, Next(stream, data[i], full).tokens, full, decodes);
        var more := FeedByte(data[i]);
        events := events + more;
        i := i + 1;
      }
      assert data[..i] == data;
    }

    method FeedByte(b: Byte) returns (events: seq<ServerEvent>)
      requires Valid()
      modifies this
      ensures Valid() && stream == Next(old(stream), b, full).state
      ensures var tokens := Next(old(stream), b, full).tokens;
              events == if tokens == [] then [] else ServerEvents(tokens[0], full, decodes)
    {
      events := [];
      ghost var next := Next(stream, b, full).state;
      if b == ESC && !state.DPaste? {
        state, pending, paste, pasteOverflow := DEscape, [ESC], [], false;
      } else if state.DPaste? {
        events := FeedPaste(b);
        return;
      } else if state.DGround? {
        if b < 0x80 {
          events := [Key([b])];
        } else {
          state, pending := DUtf8, [b];
        }
      } else if state.DEscape? {
        pending := pending + [b];
        assert pending == [ESC, b];
        if b == 0x5b {
          state := DCsi;
        } else if b == 0x4f {
          state := DSs3;
        } else {
          assert pending == [ESC, b];
          events := [Key(pending)];
          Reset();
        }
      } else if state.DSs3? {
        pending := pending + [b];
        assert pending == [ESC, 0x4f, b];
        if decodes(pending) {
          events := [Key(pending)];
        }
        Reset();
      } else if state.DCsi? {
        events := FeedCsi(b);
        return;
      } else if state.DCsiDiscard? {
        if SequenceFinal(b) {
          Reset();
        }
      } else {
        pending := pending + [b];
        if !full(pending) {
          if |pending| >= UTF_MAX {
            Reset();
          }
        } else {
          if decodes(pending) {
            events := [Key(pending)];
          }
          Reset();
        }
      }
      stream := next;
    }

    method FeedCsi(b: Byte) returns (events: seq<ServerEvent>)
      requires Valid() && state.DCsi? && b != ESC
      modifies this
      ensures Valid() && stream == Next(old(stream), b, full).state
      ensures var tokens := Next(old(stream), b, full).tokens;
              events == if tokens == [] then [] else ServerEvents(tokens[0], full, decodes)
    {
      events := [];
      ghost var next := Next(stream, b, full).state;
      pending := pending + [b];
      if |pending| > MAX_SEQUENCE {
        pending := [];
        if SequenceFinal(b) {
          Reset();
        } else {
          state := DCsiDiscard;
        }
      } else if SequenceFinal(b) {
        if pending == PASTE_START {
          events := [PasteStarted];
          state, paste, pending := DPaste, [], [];
        } else {
          if decodes(pending) {
            events := [Key(pending)];
          }
          Reset();
        }
      }
      stream := next;
    }

    method FeedPaste(b: Byte) returns (events: seq<ServerEvent>)
      requires Valid() && state.DPaste?
      modifies this
      ensures Valid() && stream == Next(old(stream), b, full).state
      ensures var tokens := Next(old(stream), b, full).tokens;
              events == if tokens == [] then [] else ServerEvents(tokens[0], full, decodes)
    {
      hide LastSix;
      events := [];
      ghost var text := stream.text;
      PasteByte(paste, pasteOverflow, text, MAX_PASTE, b);
      paste := paste + [b];
      if !pasteOverflow && |paste| > MAX_PASTE {
        pasteOverflow := true;
        paste := LastSix(paste);
      } else if pasteOverflow && |paste| > END_LENGTH {
        paste := LastSix(paste);
      }
      EndedLength(paste);
      if Ended(paste) {
        events := [PasteDone(paste[..|paste| - END_LENGTH], pasteOverflow)];
        Reset();
        return;
      }
      stream := Pasting(text + [b]);
    }

    /** A lone escape becomes a key when the source falls idle. */
    method FlushLoneEscape() returns (flushed: bool)
      requires Valid()
      modifies this
      ensures Valid() && stream == Flushed(old(stream)) && (flushed <==> old(stream).Escape?)
    {
      flushed := state.DEscape? && |pending| == 1;
      if flushed {
        Reset();
      }
    }
  }

  lemma {:induction false} NoServerEvents(full: FullRune, decodes: Decodes)
    ensures AllServerEvents([], full, decodes) == []
  {
  }

  lemma {:induction false} OneToken(s: Splitter, b: Byte, full: FullRune)
    ensures |Next(s, b, full).tokens| <= 1
  {
  }

  lemma {:induction false} EndedLength(w: seq<Byte>)
    ensures Ended(w) ==> |w| >= END_LENGTH
  {
  }

  // ------------------------------------------------------------ the predictor's

  /** What a complete control sequence is to the predictor: ignored, a key byte,
      or a boundary (zero); given. */
  type Predictable = seq<Byte> -> Option<Byte>

  function PredictionBytes(token: Token, csi: Predictable): seq<Byte> {
    match token
    case Plain(b) => [b]
    case AfterEscape(_) => [0]
    case Ss3(_) => [0]
    case Control(raw) => (match csi(raw) case Some(key) => [key] case None => [])
    case Overlong => [0]
    case RuneBytes(_) => [0]
    case PasteStart => [0]
    case Pasted(_) => []
  }

  function AllPredictionBytes(tokens: seq<Token>, csi: Predictable): seq<Byte> {
    if tokens == [] then []
    else AllPredictionBytes(tokens[..|tokens| - 1], csi) + PredictionBytes(tokens[|tokens| - 1], csi)
  }

  lemma {:induction false} PredictionBytesAppend(a: seq<Token>, b: seq<Token>, csi: Predictable)
    requires |b| <= 1
    ensures AllPredictionBytes([], csi) == []
    ensures AllPredictionBytes(a + b, csi) == AllPredictionBytes(a, csi) + if b == [] then [] else PredictionBytes(b[0], csi)
  {
    if b == [] {
      assert a + b == a;
    } else {
      assert (a + b)[..|a|] == a;
    }
  }

  /** `predictionInputDecoder`: of a paste it keeps only a six-byte window. */
  class PredictionInputDecoder {
    var state: DecodeState
    var pending: seq<Byte>
    const full: FullRune
    const csi: Predictable
    ghost var stream: Splitter

    ghost predicate Valid()
      reads this
    {
      && state == StateOf(stream)
      && pending == if stream.Pasting? then LastSix(stream.text) else PendingOf(stream)
    }

    constructor (full: FullRune, csi: Predictable)
      ensures Valid() && stream == Ground && this.full == full && this.csi == csi
    {
      state, pending, stream, this.full, this.csi := DGround, [], Ground, full, csi;
    }

    method Reset()
      modifies this
      ensures Valid() && stream == Ground
    {
      state, pending, stream := DGround, [], Ground;
    }

    /** Decodes exactly the splitter's tokens. */
    method Feed(data: seq<Byte>) returns (out: seq<Byte>)
      requires Valid()
      modifies this
      ensures Valid() && stream == Split(old(stream), data, full).state
      ensures out == AllPredictionBytes(Split(old(stream), data, full).tokens, csi)
    {
      hide Split, Next, AllPredictionBytes;
      out := [];
      ghost var start := stream;
      NothingSplit(start, data, full);
      PredictionBytesAppend([], [], csi);
      var i := 0;
      while i < |data|
        invariant 0 <= i <= |data| && Valid()
        invariant stream == Split(start, data[..i], full).state
        invariant out == AllPredictionBytes(Split(start, data[..i], full).tokens, csi)
      {
        SplitNext(start, data, i, full);
        OneToken(stream, data[i], full);
        PredictionBytesAppend(Split(start, data[..i], full).tokens, Next(stream, data[i], full).tokens, csi);
        var more := FeedByte(data[i]);
        out := out + more;
        i := i + 1;
      }
      assert data[..i] == data;
    }

    method FeedByte(b: Byte) returns (out: seq<Byte>)
      requires Valid()
      modifies this
      ensures Valid() && stream == Next(old(stream), b, full).state
      ensures var tokens := Next(old(stream), b, full).tokens;
              out == if tokens == [] then [] else PredictionBytes(tokens[0], csi)
    {
      out := [];
      ghost var next := Next(stream, b, full).state;
      if b == ESC && !state.DPaste? {
        state, pending := DEscape, [ESC];
      } else if state.DPaste? {
        FeedPaste(b);
        return;
      } else if state.DGround? {
        if b < 0x80 {
          out := [b];
        } else {
          state, pending := DUtf8, [b];
        }
      } else if state.DEscape? {
        pending := pending + [b];
        assert pending == [ESC, b];
        if b == 0x5b {
          state := DCsi;
        } else if b == 0x4f {
          state := DSs3;
        } else {
          out := [0];
          Reset();
        }
      } else if state.DSs3? {
        out := [0];
        Reset();
      } else if state.DCsi? {
        out := FeedCsi(b);
        return;
      } else if state.DCsiDiscard? {
        if SequenceFinal(b) {
          Reset();
        }
      } else {
        pending := pending + [b];
        if full(pending) || |pending| >= UTF_MAX {
          out := [0];
          Reset();
        }
      }
      stream := next;
    }

    method FeedCsi(b: Byte) returns (out: seq<Byte>)
      requires Valid() && state.DCsi? && b != ESC
      modifies this
      ensures Valid() && stream == Next(old(stream), b, full).state
      ensures var tokens := Next(old(stream), b, full).tokens;
              out == if tokens == [] then [] else PredictionBytes(tokens[0], csi)
    {
      out := [];
      ghost var next := Next(stream, b, full).state;
      pending := pending + [b];
      if |pending| > MAX_SEQUENCE {
        out, pending := [0], [];
        if SequenceFinal(b) {
          Reset();
        } else {
          state := DCsiDiscard;
        }
      } else if SequenceFinal(b) {
        if pending == PASTE_START {
          out, state, pending := [0], DPaste, [];
        } else {
          var key := csi(pending);
          if key.Some? {
            out := [key.value];
          }
          Reset();
        }
      }
      stream := next;
    }

    method FeedPaste(b: Byte)
      requires Valid() && state.DPaste?
      modifies this
      ensures Valid() && stream == Next(old(stream), b, full).state
      ensures forall token :: token in Next(old(stream), b, full).tokens ==> token.Pasted?
    {
      ghost var text := stream.text;
      TailOfTail(text, b);
      pending := pending + [b];
      if |pending| > END_LENGTH {
        pending := pending[|pending| - END_LENGTH..];
      }
      assert pending == LastSix(text + [b]);
      if pending == PASTE_END {
        Reset();
        return;
      }
      stream := Pasting(text + [b]);
    }

    method FlushLoneEscape() returns (out: seq<Byte>)
      requires Valid()
      modifies this
      ensures Valid() && stream == Flushed(old(stream)) && out == if old(stream).Escape? then [0] else []
    {
      out := [];
      if state.DEscape? && |pending| == 1 {
        Reset();
        out := [0];
      }
    }
  }

  // --------------------------------------------------------------- the prompt's

  datatype PromptEvent = PromptKey(raw: seq<Byte>) | PromptPaste(text: seq<Byte>)

  /** Which sequences are prompt keys, and which pastes are valid text; given. */
  type Accepts = seq<Byte> -> bool

  const ESCAPE_KEY := PromptKey([ESC])

  function PromptEvents(token: Token, keys: Accepts, validText: Accepts): seq<PromptEvent> {
    match token
    case Plain(b) => if keys([b]) then [PromptKey([b])] else []
    case AfterEscape(_) => [ESCAPE_KEY]
    case Ss3(b) => if keys([ESC, 0x4f, b]) then [PromptKey([ESC, 0x4f, b])] else []
    case Control(raw) => if keys(raw) then [PromptKey(raw)] else []
    case Overlong => []
    case RuneBytes(raw) => if keys(raw) then [PromptKey(raw)] else []
    case PasteStart => []
    case Pasted(text) => if |text| <= MAX_PROMPT_TEXT && validText(text) then [PromptPaste(text)] else []
  }

  function AllPromptEvents(tokens: seq<Token>, keys: Accepts, validText: Accepts): seq<PromptEvent> {
    if tokens == [] then []
    else AllPromptEvents(tokens[..|tokens| - 1], keys, validText) + PromptEvents(tokens[|tokens| - 1], keys, validText)
  }

  lemma {:induction false} PromptEventsAppend(a: seq<Token>, b: seq<Token>, keys: Accepts, validText: Accepts)
    requires |b| <= 1
    ensures AllPromptEvents([], keys, validText) == []
    ensures AllPromptEvents(a + b, keys, validText) ==
            AllPromptEvents(a, keys, validText) + if b == [] then [] else PromptEvents(b[0], keys, validText)
  {
    if b == [] {
      assert a + b == a;
    } else {
      assert (a + b)[..|a|] == a;
    }
  }

  /** `promptInputDecoder`. */
  class PromptInputDecoder {
    var state: DecodeState
    var pending: seq<Byte>
    var paste: seq<Byte>
    var pasteOverflow: bool
    const full: FullRune
    const keys: Accepts
    const validText: Accepts
    ghost var stream: Splitter

    ghost predicate Valid()
      reads this
    {
      && state == StateOf(stream) && pending == PendingOf(stream)
      && if stream.Pasting? then KeepsPaste(paste, pasteOverflow, stream.text, MAX_PROMPT_TEXT + END_LENGTH)
         else paste == [] && !pasteOverflow
    }

    constructor (full: FullRune, keys: Accepts, validText: Accepts)
      ensures Valid() && stream == Ground && this.full == full && this.keys == keys && this.validText == validText
    {
      state, pending, paste, pasteOverflow, stream := DGround, [], [], false, Ground;
      this.full, this.keys, this.validText := full, keys, validText;
    }

    method Reset()
      modifies this
      ensures Valid() && stream == Ground
    {
      state, pending, paste, pasteOverflow, stream := DGround, [], [], false, Ground;
    }

    /** Decodes exactly the splitter's tokens, then a lone escape when idle. */
    method Feed(data: seq<Byte>, sourceIdle: bool) returns (events: seq<PromptEvent>)
      requires Valid()
      modifies this
      ensures Valid()
      ensures var split := Split(old(stream), data, full);
              && stream == (if sourceIdle then Flushed(split.state) else split.state)
              && events == AllPromptEvents(split.tokens, keys, validText)
                           + if sourceIdle && split.state.Escape? then [ESCAPE_KEY] else []
    {
      hide Split, Next, AllPromptEvents;
      events := [];
      ghost var start := stream;
      NothingSplit(start, data, full);
      PromptEventsAppend([], [], keys, validText);
      var i := 0;
      while i < |data|
        invariant 0 <= i <= |data| && Valid()
        invariant stream == Split(start, data[..i], full).state
        invariant events == AllPromptEvents(Split(start, data[..i], full).tokens, keys, validText)
      {
        SplitNext(start, data, i, full);
        OneToken(stream, data[i], full);
        PromptEventsAppend(Split(start, data[..i], full).tokens, Next(stream, data[i], full).tokens, keys, validText);
        var more := FeedByte(data[i]);
        events := events + more;
        i := i + 1;
      }
      assert data[..i] == data;
      if sourceIdle && state.DEscape? && |pending| == 1 {
        events := events + [ESCAPE_KEY];
        Reset();
      }
    }

    method FeedByte(b: Byte) returns (events: seq<PromptEvent>)
      requires Valid()
      modifies this
      ensures Valid() && stream == Next(old(stream), b, full).state
      ensures var tokens := Next(old(stream), b, full).tokens;
              events == if tokens == [] then [] else PromptEvents(tokens[0], keys, validText)
    {
      events := [];
      ghost var next := Next(stream, b, full).state;
      if b == ESC && !state.DPaste? {
        state, pending, paste, pasteOverflow := DEscape, [ESC], [], false;
      } else if state.DPaste? {
        events := FeedPaste(b);
        return;
      } else if state.DGround? {
        if b < 0x80 {
          if keys([b]) {
            events := [PromptKey([b])];
          }
        } else {
          state, pending := DUtf8, [b];
        }
      } else if state.DEscape? {
        pending := pending + [b];
        assert pending == [ESC, b];
        if b == 0x5b {
          state := DCsi;
        } else if b == 0x4f {
          state := DSs3;
        } else {
          events := [ESCAPE_KEY];
          Reset();
        }
      } else if state.DSs3? {
        if keys([ESC, 0x4f, b]) {
          events := [PromptKey([ESC, 0x4f, b])];
        }
        Reset();
      } else if state.DCsi? {
        events := FeedCsi(b);
        return;
      } else if state.DCsiDiscard? {
        if SequenceFinal(b) {
          Reset();
        }
      } else {
        pending := pending + [b];
        if full(pending) || |pending| >= UTF_MAX {
          if keys(pending) {
            events := [PromptKey(pending)];
          }
          Reset();
        }
      }
      stream := next;
    }

    method FeedCsi(b: Byte) returns (events: seq<PromptEvent>)
      requires Valid() && state.DCsi? && b != ESC
      modifies this
      ensures Valid() && stream == Next(old(stream), b, full).state
      ensures var tokens := Next(old(stream), b, full).tokens;
              events == if tokens == [] then [] else PromptEvents(tokens[0], keys, validText)
    {
      events := [];
      ghost var next := Next(stream, b, full).state;
      pending := pending + [b];
      if |pending| > MAX_SEQUENCE {
        pending := [];
        if SequenceFinal(b) {
          Reset();
        } else {
          state := DCsiDiscard;
        }
      } else if SequenceFinal(b) {
        if pending == PASTE_START {
          state, paste, pending, pasteOverflow := DPaste, [], [], false;
        } else {
          if keys(pending) {
            events := [PromptKey(pending)];
          }
          Reset();
        }
      }
      stream := next;
    }

    method FeedPaste(b: Byte) returns (events: seq<PromptEvent>)
      requires Valid() && state.DPaste?
      modifies this
      ensures Valid() && stream == Next(old(stream), b, full).state
      ensures var tokens := Next(old(stream), b, full).tokens;
              events == if tokens == [] then [] else PromptEvents(tokens[0], keys, validText)
    {
      hide LastSix;
      events := [];
      ghost var text := stream.text;
      var limit := MAX_PROMPT_TEXT + END_LENGTH;
      PasteByte(paste, pasteOverflow, text, limit, b);
      paste := paste + [b];
      if !pasteOverflow && |paste| > limit {
        pasteOverflow := true;
        paste := LastSix(paste);
      } else if pasteOverflow && |paste| > END_LENGTH {
        paste := LastSix(paste);
      }
      EndedLength(paste);
      if Ended(paste) {
        if !pasteOverflow {
          var payload := paste[..|paste| - END_LENGTH];
          if validText(payload) {
            events := [PromptPaste(payload)];
          }
        }
        Reset();
        return;
      }
      stream := Pasting(text + [b]);
    }
  }

  // ------------------------------------------------------------------ agreement

  /** One client's bytes, chunk by chunk, with a lone escape flushed when a chunk is
      the last for now. */
  datatype Chunk = Chunk(data: seq<Byte>, idle: bool)

  /** All three decoders, fed any chunks in step, are in corresponding states after
      each: the same sequence pending, and in or out of a paste together. */
  method FeedAll(server: FrontendInputParser, predictor: PredictionInputDecoder, prompt: PromptInputDecoder, chunks: seq<Chunk>)
    requires server.Valid() && predictor.Valid() && prompt.Valid()
    requires server.full == predictor.full == prompt.full
    requires server.stream == predictor.stream == prompt.stream
    modifies server, predictor, prompt
    ensures server.Valid() && predictor.Valid() && prompt.Valid()
    ensures server.stream == predictor.stream == prompt.stream
    ensures server.state == predictor.state == prompt.state
    ensures !server.state.DPaste? ==> server.pending == predictor.pending == prompt.pending
    ensures server.state.DPaste? ==> predictor.pending == LastSix(server.paste) == LastSix(prompt.paste)
  {
    hide Split, AllServerEvents, AllPredictionBytes, AllPromptEvents;
    var i := 0;
    while i < |chunks|
      invariant server.Valid() && predictor.Valid() && prompt.Valid()
      invariant server.stream == predictor.stream == prompt.stream
    {
      var events := server.Feed(chunks[i].data);
      var bytes := predictor.Feed(chunks[i].data);
      if chunks[i].idle {
        var flushed := server.FlushLoneEscape();
        var more := predictor.FlushLoneEscape();
      }
      var keys := prompt.Feed(chunks[i].data, chunks[i].idle);
      i := i + 1;
    }
  }

  // ----------------------------------------------- what the events are, together

  /** The bytes of what the stream is in the middle of. */
  function Underway(s: Splitter): seq<Byte> {
    match s
    case Pasting(text) => text
    case _ => PendingOf(s)
  }

  /** The bytes a token was read from; a paste ends with its marker. */
  function RawOf(t: Token): seq<Byte> {
    match t
    case Plain(b) => [b]
    case AfterEscape(b) => [ESC, b]
    case Ss3(b) => [ESC, 0x4f, b]
    case Control(raw) => raw
    case Overlong => []
    case RuneBytes(raw) => raw
    case PasteStart => PASTE_START
    case Pasted(text) => text + PASTE_END
  }

  function Raws(tokens: seq<Token>): seq<Byte> {
    if tokens == [] then [] else Raws(tokens[..|tokens| - 1]) + RawOf(tokens[|tokens| - 1])
  }

  /** No sequence is abandoned for a new escape, and none grows too long. */
  ghost predicate Unbroken(data: seq<Byte>, full: FullRune) {
    forall i :: 0 <= i < |data| ==> UnbrokenAt(Split(Ground, data[..i], full).state, data[i])
  }

  predicate UnbrokenAt(s: Splitter, b: Byte) {
    && (b == ESC ==> s.Ground? || s.Pasting?)
    && !s.Discard? && (s.Csi? ==> |s.pending| < MAX_SEQUENCE)
  }

  /** An unbroken stream is its tokens and what is underway, byte for byte. */
  lemma {:induction false} SplitLossless(data: seq<Byte>, full: FullRune)
    requires Unbroken(data, full)
    ensures var split := Split(Ground, data, full); Raws(split.tokens) + Underway(split.state) == data && !split.state.Discard?
    decreases |data|
  {
    hide *;
    if data == [] {
      NothingLossless(data, full);
    } else {
      var init, b := data[..|data| - 1], data[|data| - 1];
      UnbrokenPrefix(data, full);
      var before := Split(Ground, init, full);
      var next := Next(before.state, b, full);
      SplitLast(data, full);
      SplitLossless(init, full);
      NextLossless(before.state, b, full);
      RawsAppend(before.tokens, next.tokens);
      Combined(Raws(before.tokens), Underway(before.state), init, [b], Raws(next.tokens), Underway(next.state));
      assert init + [b] == data;
    }
  }

  lemma {:induction false} NothingLossless(data: seq<Byte>, full: FullRune)
    requires data == []
    ensures var split := Split(Ground, data, full); Raws(split.tokens) + Underway(split.state) == data && split == Advance(Ground, [])
  {
  }

  lemma {:induction false} SplitLast(data: seq<Byte>, full: FullRune)
    requires data != []
    ensures var before := Split(Ground, data[..|data| - 1], full);
            var next := Next(before.state, data[|data| - 1], full);
            Split(Ground, data, full) == Advance(next.state, before.tokens + next.tokens)
  {
    hide Next;
  }

  lemma {:induction false} Combined(done: seq<Byte>, underway: seq<Byte>, init: seq<Byte>, b: seq<Byte>, more: seq<Byte>, rest: seq<Byte>)
    requires done + underway == init && more + rest == underway + b
    ensures done + more + rest == init + b
  {
    Regrouped(done, underway, b);
    Regrouped(done, more, rest);
  }

  lemma {:induction false} Regrouped(a: seq<Byte>, b: seq<Byte>, c: seq<Byte>)
    ensures (a + b) + c == a + (b + c)
  {
  }

  lemma {:induction false} UnbrokenPrefix(data: seq<Byte>, full: FullRune)
    requires Unbroken(data, full) && data != []
    ensures Unbroken(data[..|data| - 1], full)
    ensures UnbrokenAt(Split(Ground, data[..|data| - 1], full).state, data[|data| - 1])
  {
    hide UnbrokenAt, Split;
    var init := data[..|data| - 1];
    forall i | 0 <= i < |init| ensures UnbrokenAt(Split(Ground, init[..i], full).state, init[i]) {
      assert init[..i] == data[..i];
    }
  }

  lemma {:induction false} NextLossless(s: Splitter, b: Byte, full: FullRune)
    requires UnbrokenAt(s, b)
    ensures var next := Next(s, b, full);
            |next.tokens| <= 1 && Raws(next.tokens) + Underway(next.state) == Underway(s) + [b] && !next.state.Discard?
  {
    var next := Next(s, b, full);
    OneRaw(next.tokens);
    hide Raws, Ended, LastSix, RawOf;
    match s
    case Pasting(text) => PasteLossless(text, b);
    case Csi(pending) => CsiLossless(pending, b, full);
    case RuneTail(pending) => RuneLossless(pending, b, full);
    case _ => ShortLossless(s, b, full);
  }

  lemma {:induction false} RuneLossless(pending: seq<Byte>, b: Byte, full: FullRune)
    requires b != ESC
    ensures var next := Next(RuneTail(pending), b, full);
            if next.tokens == [] then next.state == RuneTail(pending + [b])
            else next.state == Ground && next.tokens == [RuneBytes(pending + [b])] && RawOf(RuneBytes(pending + [b])) == pending + [b]
  {
  }

  lemma {:induction false} ShortLossless(s: Splitter, b: Byte, full: FullRune)
    requires UnbrokenAt(s, b) && (s.Ground? || s.Escape? || s.Third?)
    ensures var next := Next(s, b, full);
            && !next.state.Discard?
            && (if next.tokens == [] then Underway(next.state) == Underway(s) + [b]
                else |next.tokens| == 1 && RawOf(next.tokens[0]) == Underway(s) + [b] && Underway(next.state) == [])
  {
    RawTokens([b]);
    ShortTokens(b);
    hide RawOf;
  }

  lemma {:induction false} CsiLossless(pending: seq<Byte>, b: Byte, full: FullRune)
    requires UnbrokenAt(Csi(pending), b)
    ensures var next := Next(Csi(pending), b, full);
            && !next.state.Discard?
            && (if next.tokens == [] then next.state == Csi(pending + [b])
                else |next.tokens| == 1 && RawOf(next.tokens[0]) == pending + [b] && Underway(next.state) == [])
  {
    RawTokens(pending + [b]);
    hide RawOf;
  }

  lemma {:induction false} PasteLossless(text: seq<Byte>, b: Byte)
    ensures var all := text + [b]; Ended(all) ==> |all| >= END_LENGTH && RawOf(Pasted(all[..|all| - END_LENGTH])) == all
  {
    var all := text + [b];
    if Ended(all) {
      assert all == all[..|all| - END_LENGTH] + all[|all| - END_LENGTH..];
    }
  }

  lemma {:induction false} RawTokens(raw: seq<Byte>)
    ensures RawOf(Control(raw)) == RawOf(RuneBytes(raw)) == raw && (raw == PASTE_START ==> RawOf(PasteStart) == raw)
    ensures |raw| == 1 ==> RawOf(Plain(raw[0])) == raw
  {
  }

  lemma {:induction false} ShortTokens(b: Byte)
    ensures RawOf(AfterEscape(b)) == [ESC] + [b] && RawOf(Ss3(b)) == [ESC, 0x4f] + [b]
  {
  }

  lemma {:induction false} OneRaw(tokens: seq<Token>)
    requires |tokens| <= 1
    ensures Raws(tokens) == if tokens == [] then [] else RawOf(tokens[0])
  {
    if tokens != [] {
      assert tokens[..0] == [];
      assert [] + RawOf(tokens[0]) == RawOf(tokens[0]);
    }
  }

  lemma {:induction false} RawsAppend(a: seq<Token>, b: seq<Token>)
    requires |b| <= 1
    ensures Raws(a + b) == Raws(a) + Raws(b)
  {
    OneRaw(b);
    if b == [] {
      assert a + b == a && Raws(a) + [] == Raws(a);
    } else {
      assert (a + b)[..|a|] == a;
    }
  }

  /** The bytes an event of the server carries. */
  function EventRaw(e: ServerEvent): seq<Byte> {
    match e
    case Key(raw) => raw
    case PasteStarted => PASTE_START
    case PasteDone(payload, _) => payload + PASTE_END
  }

  function EventRaws(events: seq<ServerEvent>): seq<Byte> {
    if events == [] then [] else EventRaws(events[..|events| - 1]) + EventRaw(events[|events| - 1])
  }

  /** Nothing is left out of a token. */
  predicate Delivered(t: Token, full: FullRune, decodes: Decodes) {
    match t
    case Ss3(b) => decodes([ESC, 0x4f, b])
    case Control(raw) => decodes(raw)
    case RuneBytes(raw) => full(raw) && decodes(raw)
    case Overlong => false
    case Pasted(text) => |text| + END_LENGTH <= MAX_PASTE
    case _ => true
  }

  /** When everything is a key or a paste, the server's events carry the bytes of the
      tokens, all of them and in order. */
  lemma {:induction false} EventsCarryAll(tokens: seq<Token>, full: FullRune, decodes: Decodes)
    requires forall i :: 0 <= i < |tokens| ==> Delivered(tokens[i], full, decodes)
    ensures EventRaws(AllServerEvents(tokens, full, decodes)) == Raws(tokens)
    decreases |tokens|
  {
    if tokens != [] {
      var init, last := tokens[..|tokens| - 1], tokens[|tokens| - 1];
      EventsCarryAll(init, full, decodes);
      assert Delivered(last, full, decodes);
      EventCarries(last, full, decodes);
      hide ServerEvents, RawOf, EventRaw, Delivered;
      var events, e := AllServerEvents(init, full, decodes), ServerEvents(last, full, decodes);
      assert (events + e)[..|events|] == events;
    }
  }

  lemma {:induction false} EventCarries(t: Token, full: FullRune, decodes: Decodes)
    requires Delivered(t, full, decodes)
    ensures |ServerEvents(t, full, decodes)| == 1 && EventRaw(ServerEvents(t, full, decodes)[0]) == RawOf(t)
  {
  }

  /** What typing the server's events amount to for the predictor: a plain byte, or
      what a control sequence stands for. */
  function TypedBy(e: ServerEvent, csi: Predictable): seq<Byte> {
    if !e.Key? then []
    else if |e.raw| == 1 then Nonzero(e.raw)
    else if |e.raw| >= 2 && e.raw[..2] == [ESC, 0x5b] then (match csi(e.raw) case Some(b) => Nonzero([b]) case None => [])
    else []
  }

  function AllTyped(events: seq<ServerEvent>, csi: Predictable): seq<Byte> {
    if events == [] then [] else AllTyped(events[..|events| - 1], csi) + TypedBy(events[|events| - 1], csi)
  }

  /** Zero is the predictor's boundary. */
  function Nonzero(bytes: seq<Byte>): seq<Byte> {
    if bytes == [] then []
    else Nonzero(bytes[..|bytes| - 1]) + if bytes[|bytes| - 1] == 0 then [] else [bytes[|bytes| - 1]]
  }

  lemma {:induction false} NonzeroAppend(a: seq<Byte>, b: seq<Byte>)
    requires |b| <= 1
    ensures Nonzero([]) == [] && Nonzero(a + b) == Nonzero(a) + Nonzero(b)
  {
    if b == [] {
      assert a + b == a && Nonzero(a) + [] == Nonzero(a);
    } else {
      assert (a + b)[..|a|] == a && b[..0] == [] && Nonzero(b[..0]) == [];
      assert b == [b[0]];
    }
  }

  /** Tokens as the splitter makes them. */
  predicate Regular(t: Token) {
    match t
    case Control(raw) => |raw| >= 3 && raw[..2] == [ESC, 0x5b]
    case RuneBytes(raw) => |raw| >= 2 && raw[0] >= 0x80
    case AfterEscape(b) => b != 0x5b
    case _ => true
  }

  predicate RegularState(s: Splitter) {
    match s
    case Csi(pending) => |pending| >= 2 && pending[..2] == [ESC, 0x5b]
    case RuneTail(pending) => |pending| >= 1 && pending[0] >= 0x80
    case _ => true
  }

  lemma {:induction false} SplitRegular(data: seq<Byte>, full: FullRune)
    ensures var split := Split(Ground, data, full);
            RegularState(split.state) && forall i :: 0 <= i < |split.tokens| ==> Regular(split.tokens[i])
    decreases |data|
  {
    if data != [] {
      var before := Split(Ground, data[..|data| - 1], full);
      SplitRegular(data[..|data| - 1], full);
      NextRegular(before.state, data[|data| - 1], full);
    }
  }

  lemma {:induction false} NextRegular(s: Splitter, b: Byte, full: FullRune)
    requires RegularState(s)
    ensures var next := Next(s, b, full); RegularState(next.state) && forall i :: 0 <= i < |next.tokens| ==> Regular(next.tokens[i])
  {
    if s.Csi? {
      assert (s.pending + [b])[..2] == s.pending[..2];
    }
  }

  /** Sequences that are keys to the predictor are keys to the server. */
  ghost predicate KeysAgree(csi: Predictable, decodes: Decodes) {
    forall raw :: csi(raw).Some? && csi(raw).value != 0 ==> decodes(raw)
  }

  /** What the predictor takes for typing is what the server does: on every stream the
      bytes it is given, without the boundaries, are those of the server's keys that
      are plain or predictable. */
  lemma {:induction false} PredictsKeys(data: seq<Byte>, full: FullRune, decodes: Decodes, csi: Predictable)
    requires KeysAgree(csi, decodes)
    ensures var tokens := Split(Ground, data, full).tokens;
            Nonzero(AllPredictionBytes(tokens, csi)) == AllTyped(AllServerEvents(tokens, full, decodes), csi)
  {
    SplitRegular(data, full);
    PredictsTokens(Split(Ground, data, full).tokens, full, decodes, csi);
  }

  lemma {:induction false} PredictsTokens(tokens: seq<Token>, full: FullRune, decodes: Decodes, csi: Predictable)
    requires KeysAgree(csi, decodes) && forall i :: 0 <= i < |tokens| ==> Regular(tokens[i])
    ensures Nonzero(AllPredictionBytes(tokens, csi)) == AllTyped(AllServerEvents(tokens, full, decodes), csi)
    decreases |tokens|
  {
    if tokens != [] {
      var init, last := tokens[..|tokens| - 1], tokens[|tokens| - 1];
      PredictsTokens(init, full, decodes, csi);
      PredictsToken(last, full, decodes, csi);
      hide Nonzero, TypedBy, PredictionBytes, ServerEvents;
      NonzeroAppend(AllPredictionBytes(init, csi), PredictionBytes(last, csi));
      TypedAppend(AllServerEvents(init, full, decodes), ServerEvents(last, full, decodes), csi);
    }
  }

  lemma {:induction false} PredictsToken(t: Token, full: FullRune, decodes: Decodes, csi: Predictable)
    requires KeysAgree(csi, decodes) && Regular(t)
    ensures |PredictionBytes(t, csi)| <= 1 && |ServerEvents(t, full, decodes)| <= 1
    ensures Nonzero(PredictionBytes(t, csi)) == if ServerEvents(t, full, decodes) == [] then [] else TypedBy(ServerEvents(t, full, decodes)[0], csi)
  {
    assert Nonzero([]) == [];
    assert Nonzero([0]) == [] by { NonzeroAppend([], [0]); assert [0][..0] == []; }
    if t.AfterEscape? {
      assert [ESC, t.b][..2][1] == t.b;
    } else if t.Ss3? {
      assert [ESC, 0x4f, t.b][..2][1] == 0x4f;
    } else if t.RuneBytes? {
      assert t.raw[..2][0] == t.raw[0];
    }
  }

  lemma {:induction false} TypedAppend(a: seq<ServerEvent>, b: seq<ServerEvent>, csi: Predictable)
    requires |b| <= 1
    ensures AllTyped(a + b, csi) == AllTyped(a, csi) + if b == [] then [] else TypedBy(b[0], csi)
  {
    if b == [] {
      assert a + b == a;
    } else {
      assert (a + b)[..|a|] == a;
    }
  }

  /** An event that ends what can be predicted: a paste, or a key that is not typing
      and that the predictor does not know to be harmless. */
  predicate Ends(e: ServerEvent, csi: Predictable) {
    match e
    case PasteStarted => true
    case PasteDone(_, _) => false
    case Key(raw) => TypedBy(e, csi) == [] && !(|raw| >= 2 && raw[..2] == [ESC, 0x5b] && csi(raw).None?)
  }

  function EndCount(events: seq<ServerEvent>, csi: Predictable): nat {
    if events == [] then 0 else EndCount(events[..|events| - 1], csi) + if Ends(events[|events| - 1], csi) then 1 else 0
  }

  function Boundaries(bytes: seq<Byte>): nat {
    if bytes == [] then 0 else Boundaries(bytes[..|bytes| - 1]) + if bytes[|bytes| - 1] == 0 then 1 else 0
  }

  /** No such event goes by without a boundary. */
  lemma {:induction false} EndsAreBoundaries(data: seq<Byte>, full: FullRune, decodes: Decodes, csi: Predictable)
    ensures var tokens := Split(Ground, data, full).tokens;
            Boundaries(AllPredictionBytes(tokens, csi)) >= EndCount(AllServerEvents(tokens, full, decodes), csi)
  {
    SplitRegular(data, full);
    EndsOfTokens(Split(Ground, data, full).tokens, full, decodes, csi);
  }

  lemma {:induction false} EndsOfTokens(tokens: seq<Token>, full: FullRune, decodes: Decodes, csi: Predictable)
    requires forall i :: 0 <= i < |tokens| ==> Regular(tokens[i])
    ensures Boundaries(AllPredictionBytes(tokens, csi)) >= EndCount(AllServerEvents(tokens, full, decodes), csi)
    decreases |tokens|
  {
    if tokens != [] {
      var init, last := tokens[..|tokens| - 1], tokens[|tokens| - 1];
      EndsOfTokens(init, full, decodes, csi);
      assert Regular(last);
      EndOfToken(last, full, decodes, csi);
      var bytes, b := AllPredictionBytes(init, csi), PredictionBytes(last, csi);
      var events, e := AllServerEvents(init, full, decodes), ServerEvents(last, full, decodes);
      assert AllPredictionBytes(tokens, csi) == bytes + b && AllServerEvents(tokens, full, decodes) == events + e;
      hide *;
      BoundariesAppend(bytes, b);
      EndCountAppend(events, e, csi);
    }
  }

  lemma {:induction false} BoundariesAppend(a: seq<Byte>, b: seq<Byte>)
    requires |b| <= 1
    ensures Boundaries(a + b) == Boundaries(a) + if b == [0] then 1 else 0
  {
    if b == [] {
      assert a + b == a;
    } else {
      assert (a + b)[..|a|] == a;
    }
  }

  lemma {:induction false} EndCountAppend(a: seq<ServerEvent>, b: seq<ServerEvent>, csi: Predictable)
    requires |b| <= 1
    ensures EndCount(a + b, csi) == EndCount(a, csi) + if b != [] && Ends(b[0], csi) then 1 else 0
  {
    hide Ends;
    if b == [] {
      assert a + b == a;
    } else {
      assert (a + b)[..|a|] == a;
    }
  }

  lemma {:induction false} EndOfToken(t: Token, full: FullRune, decodes: Decodes, csi: Predictable)
    requires Regular(t)
    ensures |PredictionBytes(t, csi)| <= 1 && |ServerEvents(t, full, decodes)| <= 1
    ensures ServerEvents(t, full, decodes) != [] && Ends(ServerEvents(t, full, decodes)[0], csi) ==> PredictionBytes(t, csi) == [0]
  {
    hide Nonzero;
    forall b: Byte ensures Nonzero([b]) == if b == 0 then [] else [b] {
      OneNonzero(b);
    }
  }

  lemma {:induction false} OneNonzero(b: Byte)
    ensures Nonzero([b]) == if b == 0 then [] else [b]
  {
    assert [b][..0] == [];
    assert Nonzero([b][..0]) == [];
  }

  /** What the prompt makes of an event of the server: after an escape the escape
      counts, other keys and pastes if it knows them. */
  function PromptOf(e: ServerEvent, keys: Accepts, validText: Accepts): seq<PromptEvent> {
    match e
    case Key(raw) =>
      if |raw| == 2 && raw[0] == ESC then [ESCAPE_KEY] else if keys(raw) then [PromptKey(raw)] else []
    case PasteStarted => []
    case PasteDone(payload, discarded) =>
      if !discarded && |payload| <= MAX_PROMPT_TEXT && validText(payload) then [PromptPaste(payload)] else []
  }

  function PromptOfAll(events: seq<ServerEvent>, keys: Accepts, validText: Accepts): seq<PromptEvent> {
    if events == [] then [] else PromptOfAll(events[..|events| - 1], keys, validText) + PromptOf(events[|events| - 1], keys, validText)
  }

  /** Keys of the prompt are keys to the server. */
  ghost predicate PromptAgrees(keys: Accepts, full: FullRune, decodes: Decodes) {
    forall raw :: keys(raw) && |raw| > 1 ==> decodes(raw) && (raw[0] >= 0x80 ==> full(raw))
  }

  /** On every stream the prompt's events are the server's, as far as it knows them. */
  lemma {:induction false} PromptSeesServer(data: seq<Byte>, full: FullRune, decodes: Decodes, keys: Accepts, validText: Accepts)
    requires PromptAgrees(keys, full, decodes)
    ensures var tokens := Split(Ground, data, full).tokens;
            AllPromptEvents(tokens, keys, validText) == PromptOfAll(AllServerEvents(tokens, full, decodes), keys, validText)
  {
    SplitRegular(data, full);
    PromptSeesTokens(Split(Ground, data, full).tokens, full, decodes, keys, validText);
  }

  lemma {:induction false} PromptSeesTokens(tokens: seq<Token>, full: FullRune, decodes: Decodes, keys: Accepts, validText: Accepts)
    requires PromptAgrees(keys, full, decodes) && forall i :: 0 <= i < |tokens| ==> Regular(tokens[i])
    ensures AllPromptEvents(tokens, keys, validText) == PromptOfAll(AllServerEvents(tokens, full, decodes), keys, validText)
    decreases |tokens|
  {
    if tokens != [] {
      var init, last := tokens[..|tokens| - 1], tokens[|tokens| - 1];
      PromptSeesTokens(init, full, decodes, keys, validText);
      var events, e := AllServerEvents(init, full, decodes), ServerEvents(last, full, decodes);
      assert Regular(last);
      PromptSeesToken(last, full, decodes, keys, validText);
      hide PromptEvents, ServerEvents, PromptOf, Regular;
      if e == [] {
        assert events + e == events;
      } else {
        assert (events + e)[..|events|] == events;
      }
    }
  }

  lemma {:induction false} PromptSeesToken(t: Token, full: FullRune, decodes: Decodes, keys: Accepts, validText: Accepts)
    requires PromptAgrees(keys, full, decodes) && Regular(t)
    ensures var e := ServerEvents(t, full, decodes);
            |e| <= 1 && PromptEvents(t, keys, validText) == if e == [] then [] else PromptOf(e[0], keys, validText)
  {
    if t.Control? {
      assert t.raw[..2][0] == t.raw[0];
    }
  }

  /** What follows `ESC [` belongs to one control sequence until the first byte from
      `@` to `~`. */
  lemma {:induction false} ControlSequence(raw: seq<Byte>, final: Byte, full: FullRune)
    requires 2 <= |raw| < MAX_SEQUENCE && raw[0] == 0x1b && raw[1] == 0x5b
    requires forall i :: 2 <= i < |raw| ==> raw[i] != 0x1b && !(0x40 <= raw[i] <= 0x7e)
    requires 0x40 <= final <= 0x7e && raw + [final] != PASTE_START
    ensures Split(Ground, raw + [final], full) == Advance(Ground, [Control(raw + [final])])
  {
    Unfinished(raw, full);
    SplitLast(raw + [final], full);
    assert (raw + [final])[..|raw|] == raw;
    hide Split;
  }

  lemma {:induction false} Unfinished(raw: seq<Byte>, full: FullRune)
    requires 2 <= |raw| < MAX_SEQUENCE && raw[0] == 0x1b && raw[1] == 0x5b
    requires forall i :: 2 <= i < |raw| ==> raw[i] != 0x1b && !(0x40 <= raw[i] <= 0x7e)
    ensures Split(Ground, raw, full) == Advance(Csi(raw), [])
    decreases |raw|
  {
    if |raw| == 2 {
      Introducer(full);
      assert raw == [ESC, 0x5b];
    } else {
      var init, b := raw[..|raw| - 1], raw[|raw| - 1];
      Unfinished(init, full);
      SplitLast(raw, full);
      InSequence(raw, full);
      hide Split, Next;
    }
  }

  lemma {:induction false} InSequence(raw: seq<Byte>, full: FullRune)
    requires 0 < |raw| <= MAX_SEQUENCE && raw[|raw| - 1] != ESC && !SequenceFinal(raw[|raw| - 1])
    ensures Next(Csi(raw[..|raw| - 1]), raw[|raw| - 1], full) == Advance(Csi(raw), [])
  {
    assert raw[..|raw| - 1] + [raw[|raw| - 1]] == raw;
  }

  lemma {:induction false} Introducer(full: FullRune)
    ensures Split(Ground, [ESC, 0x5b], full) == Advance(Csi([ESC, 0x5b]), [])
  {
    SplitLast([ESC, 0x5b], full);
    SplitLast([ESC], full);
    assert [ESC, 0x5b][..1] == [ESC] && [ESC][..0] == [];
    assert Split(Ground, [ESC][..0], full) == Advance(Ground, []);
    assert Next(Ground, ESC, full) == Advance(Escape, []);
    assert Next(Escape, 0x5b, full) == Advance(Csi([ESC, 0x5b]), []);
    hide *;
  }

  function PlainKeys(data: seq<Byte>): seq<ServerEvent> {
    if data == [] then [] else PlainKeys(data[..|data| - 1]) + [Key([data[|data| - 1]])]
  }

  /** Plain bytes are typed as they are, each of them a key to the server. */
  lemma {:induction false} PlainTyping(data: seq<Byte>, full: FullRune, decodes: Decodes, csi: Predictable)
    requires forall i :: 0 <= i < |data| ==> data[i] < 0x80 && data[i] != ESC
    ensures var split := Split(Ground, data, full);
            && split.state == Ground && AllPredictionBytes(split.tokens, csi) == data
            && AllServerEvents(split.tokens, full, decodes) == PlainKeys(data)
    decreases |data|
  {
    hide *;
    if data == [] {
      NothingTyped(data, full, decodes, csi);
    } else {
      var init, b := data[..|data| - 1], data[|data| - 1];
      PlainTyping(init, full, decodes, csi);
      var before := Split(Ground, init, full);
      SplitLast(data, full);
      PlainToken(b, full, decodes, csi);
      PlainLast(data);
      PredictionBytesAppend(before.tokens, [Plain(b)], csi);
      ServerEventsAppend(before.tokens, [Plain(b)], full, decodes);
      assert data == init + [b];
    }
  }

  lemma {:induction false} NothingTyped(data: seq<Byte>, full: FullRune, decodes: Decodes, csi: Predictable)
    requires data == []
    ensures var split := Split(Ground, data, full);
            && split.state == Ground && AllPredictionBytes(split.tokens, csi) == data
            && AllServerEvents(split.tokens, full, decodes) == PlainKeys(data)
  {
  }

  lemma {:induction false} PlainToken(b: Byte, full: FullRune, decodes: Decodes, csi: Predictable)
    requires b < 0x80 && b != ESC
    ensures Next(Ground, b, full) == Advance(Ground, [Plain(b)])
    ensures PredictionBytes(Plain(b), csi) == [b] && ServerEvents(Plain(b), full, decodes) == [Key([b])]
  {
  }

  lemma {:induction false} PlainLast(data: seq<Byte>)
    requires data != []
    ensures PlainKeys(data) == PlainKeys(data[..|data| - 1]) + [Key([data[|data| - 1]])]
  {
  }
}
