/** The key decoding of input.go (and of the older copy in session.go): how
    each byte from the terminal changes the input mode, the URL buffer and
    the remembered last byte, and which action of the session it asks for.
    The `Session` class performs the actions and is proved to follow these
    functions. */
module Input {
  import opened Text

  /** The input mode: normal browsing, or typing a URL after `g`. */
  datatype Mode = Normal | Goto

  /** The input part of the session: mode, URL buffer, last byte received. */
  datatype Keys = Keys(mode: Mode, buffer: string, lastByte: byte)

  /** What a key asks the session to do. */
  datatype Action =
    | Nothing
    | Quit                              // return the "user quit" error
    | Prompt                            // write the URL prompt
    | FollowLink                        // follow the selected link, if any
    | Back                              // navigateBack, then render
    | Forward                           // navigateForward, then render
    | Arrow(delta: int, partial: bool)  // handleArrowKey, then a partial redraw when allowed and the offset did not move, else render
    | PageKey(delta: int)               // scrollPageWithDirection, then render
    | Go(url: string)                   // navigateTo
    | Redraw                            // render
    | Echo(text: string)                // write the text

  const CR: byte := 13
  const LF: byte := 10
  const ESC: byte := 27
  const BS: byte := 8
  const DEL: byte := 127

  const PromptText: string := "\r\n\U{1B}[KEnter Gemini URL: "
  const Erase: string := "\U{8} \U{8}"

  function Char(b: byte): char
  {
    b as char
  }

  predicate IsPrintable(b: byte)
  {
    32 <= b < 127
  }

  /** Every character of the buffer is a printable ASCII character. */
  predicate PrintableText(s: string)
  {
    forall i :: 0 <= i < |s| ==> 32 <= s[i] as int < 127
  }

  /** Submitting the URL buffer: trimmed, `gemini://` put in front when it is
      missing, and a navigation only when something is left. */
  function Submit(buffer: string): (a: Action)
    ensures a.Go? || a == Redraw
    ensures a.Go? <==> TrimSpace(buffer) != []
    ensures a.Go? ==> HasPrefix(a.url, "gemini://")
    ensures a.Go? ==> a.url == TrimSpace(buffer) || a.url == "gemini://" + TrimSpace(buffer)
    ensures a.Go? && HasPrefix(TrimSpace(buffer), "gemini://") ==> a.url == TrimSpace(buffer)
  {
    var url := TrimSpace(buffer);
    if url == [] then Redraw
    else Go(if HasPrefix(url, "gemini://") then url else "gemini://" + url)
  }

  /** `handleGotoInput` of input.go. */
  function GotoKey(k: Keys, b: byte): (Keys, Action)
  {
    if b == CR then (Keys(Normal, k.buffer, CR), Submit(k.buffer))
    else if b == LF then
      if k.lastByte == CR then (Keys(k.mode, k.buffer, LF), Nothing)
      else (Keys(Normal, k.buffer, LF), Submit(k.buffer))
    else if b == ESC then (Keys(Normal, [], ESC), Redraw)
    else if b == DEL || b == BS then
      if |k.buffer| > 0 then (Keys(k.mode, k.buffer[..|k.buffer| - 1], b), Echo(Erase))
      else (Keys(k.mode, k.buffer, b), Nothing)
    else if IsPrintable(b) then (Keys(k.mode, k.buffer + [Char(b)], b), Echo([Char(b)]))
    else (Keys(k.mode, k.buffer, b), Nothing)
  }

  /** `handleInput` of input.go for a byte other than ESC in normal mode. */
  function NormalKey(k: Keys, b: byte): (Keys, Action)
  {
    if b == 'g' as byte || b == 'G' as byte then (Keys(Goto, [], b), Prompt)
    else if b == CR then (Keys(k.mode, k.buffer, CR), FollowLink)
    else if b == LF then
      if k.lastByte == CR then (Keys(k.mode, k.buffer, LF), Nothing)
      else (Keys(k.mode, k.buffer, LF), FollowLink)
    else if b == DEL || b == BS then (Keys(k.mode, k.buffer, b), Back)
    else if b == 'q' as byte || b == 'Q' as byte then (k, Quit)
    else (Keys(k.mode, k.buffer, b), Nothing)
  }

  /** `handleGotoInput` of session.go: CR and LF both submit, and the last
      byte is not remembered. */
  function LegacyGotoKey(k: Keys, b: byte): (Keys, Action)
  {
    if b == CR || b == LF then (Keys(Normal, k.buffer, k.lastByte), Submit(k.buffer))
    else if b == ESC then (Keys(Normal, [], k.lastByte), Redraw)
    else if b == DEL || b == BS then
      if |k.buffer| > 0 then (Keys(k.mode, k.buffer[..|k.buffer| - 1], k.lastByte), Echo(Erase))
      else (k, Nothing)
    else if IsPrintable(b) then (Keys(k.mode, k.buffer + [Char(b)], k.lastByte), Echo([Char(b)]))
    else (k, Nothing)
  }

  /** `handleInput` of session.go for a byte other than ESC in normal mode:
      CR and LF both follow the link, and the last byte is not remembered. */
  function LegacyNormalKey(k: Keys, b: byte): (Keys, Action)
  {
    if b == 'g' as byte || b == 'G' as byte then (Keys(Goto, [], k.lastByte), Prompt)
    else if b == CR || b == LF then (k, FollowLink)
    else if b == DEL || b == BS then (k, Back)
    else if b == 'q' as byte || b == 'Q' as byte then (k, Quit)
    else (k, Nothing)
  }

  /** The action of an escape sequence `ESC s0 s1`: `[A`/`[B` up and down,
      `[C`/`[D` forward and back, `[5`/`[6` page up and down. Only the
      newer version may answer an arrow with a partial redraw. */
  function EscapeAction(s0: byte, s1: byte, legacy: bool): Action
  {
    if s0 != '[' as byte then Nothing
    else if s1 == 'A' as byte then Arrow(-1, !legacy)
    else if s1 == 'B' as byte then Arrow(1, !legacy)
    else if s1 == 'C' as byte then Forward
    else if s1 == 'D' as byte then Back
    else if s1 == '5' as byte then PageKey(-1)
    else if s1 == '6' as byte then PageKey(1)
    else Nothing
  }

  /** Byte `i` of what follows in the stream, or 0 (the zero value of the
      read buffer) when the stream ends first. */
  function ByteAt(s: seq<byte>, i: nat): byte
  {
    if i < |s| then s[i] else 0
  }

  /** The bytes an escape sequence reads after the ESC: two, and the
      trailing `~` of a page key. */
  function EscapeLength(s0: byte, s1: byte): nat
  {
    if s0 == '[' as byte && (s1 == '5' as byte || s1 == '6' as byte) then 3 else 2
  }

  /** The bytes `handleInput` reads itself after `b`, with `rest` what
      follows `b` in the stream: an escape sequence in normal mode, as much
      of it as the stream still holds. */
  function Consumed(k: Keys, b: byte, rest: seq<byte>): (n: nat)
    ensures n <= |rest|
    ensures k.mode == Goto || b != ESC ==> n == 0
  {
    if k.mode == Normal && b == ESC then Min(EscapeLength(ByteAt(rest, 0), ByteAt(rest, 1)), |rest|) else 0
  }

  /** One byte of input: in goto mode the URL editor, else ESC starts an
      escape sequence (whose next bytes are `s0`, `s1`) and leaves the
      input state as it is, else the normal keys. */
  function Step(k: Keys, b: byte, s0: byte, s1: byte, legacy: bool): (Keys, Action)
  {
    if k.mode == Goto then (if legacy then LegacyGotoKey(k, b) else GotoKey(k, b))
    else if b == ESC then (k, EscapeAction(s0, s1, legacy))
    else if legacy then LegacyNormalKey(k, b) else NormalKey(k, b)
  }

  // ---------------------------------------------------------------------
  // Properties

  /** `g` or `G` in normal mode opens the URL prompt with an empty buffer. */
  lemma GotoOpens(k: Keys, b: byte, s0: byte, s1: byte, legacy: bool)
    requires k.mode == Normal && (b == 'g' as byte || b == 'G' as byte)
    ensures var (k', a) := Step(k, b, s0, s1, legacy);
      k'.mode == Goto && k'.buffer == [] && a == Prompt
  {
  }

  /** The URL editor: a printable byte is appended and echoed; backspace or
      DEL removes the last character when there is one; any other byte it
      does not know leaves the buffer alone. */
  lemma GotoEditing(k: Keys, b: byte, s0: byte, s1: byte, legacy: bool)
    requires k.mode == Goto
    ensures var (k', a) := Step(k, b, s0, s1, legacy);
      && (IsPrintable(b) ==> k'.mode == Goto && k'.buffer == k.buffer + [Char(b)] && a == Echo([Char(b)]))
      && ((b == BS || b == DEL) && k.buffer != [] ==>
            k'.mode == Goto && k'.buffer == k.buffer[..|k.buffer| - 1] && a == Echo(Erase))
      && ((b == BS || b == DEL) && k.buffer == [] ==> k'.mode == Goto && k'.buffer == [] && a == Nothing)
      && (!IsPrintable(b) && b != BS && b != DEL && b != CR && b != LF && b != ESC ==>
            k'.mode == Goto && k'.buffer == k.buffer && a == Nothing)
  {
  }

  /** Submitting leaves goto mode: CR, or an LF that does not end a CR LF
      pair (in the older version any LF), submits the buffer. */
  lemma SubmitLeavesGoto(k: Keys, b: byte, s0: byte, s1: byte, legacy: bool)
    requires k.mode == Goto
    requires b == CR || (b == LF && (legacy || k.lastByte != CR))
    ensures var (k', a) := Step(k, b, s0, s1, legacy);
      k'.mode == Normal && k'.buffer == k.buffer && a == Submit(k.buffer)
  {
  }

  /** ESC in goto mode cancels: normal mode, empty buffer, a redraw and no navigation. */
  lemma EscapeCancels(k: Keys, s0: byte, s1: byte, legacy: bool)
    requires k.mode == Goto
    ensures var (k', a) := Step(k, ESC, s0, s1, legacy);
      k'.mode == Normal && k'.buffer == [] && a == Redraw
  {
  }

  /** An LF right after a CR is swallowed in both modes: it only becomes the
      last byte. */
  lemma CRLFSwallowed(k: Keys, s0: byte, s1: byte)
    requires k.lastByte == CR
    ensures Step(k, LF, s0, s1, false) == (Keys(k.mode, k.buffer, LF), Nothing)
  {
  }

  /** The older version has no CR LF pairing: in normal mode an LF follows
      the link whatever came before it. */
  lemma LegacyNoPairing(k: Keys, s0: byte, s1: byte)
    requires k.mode == Normal
    ensures Step(k, LF, s0, s1, true) == (k, FollowLink) && Step(k, CR, s0, s1, true) == (k, FollowLink)
  {
  }

  /** `q` or `Q` in normal mode quits and changes nothing. */
  lemma QuitChangesNothing(k: Keys, b: byte, s0: byte, s1: byte, legacy: bool)
    requires k.mode == Normal && (b == 'q' as byte || b == 'Q' as byte)
    ensures Step(k, b, s0, s1, legacy) == (k, Quit)
  {
  }

  /** Only a `q` or `Q` byte in normal mode asks to quit. */
  lemma QuitNeedsQ(k: Keys, b: byte, s0: byte, s1: byte, legacy: bool)
    ensures Step(k, b, s0, s1, legacy).1.Quit? <==> k.mode == Normal && (b == 'q' as byte || b == 'Q' as byte)
  {
  }

  /** The URL buffer only ever holds printable ASCII. */
  lemma BufferStaysPrintable(k: Keys, b: byte, s0: byte, s1: byte, legacy: bool)
    requires PrintableText(k.buffer)
    ensures PrintableText(Step(k, b, s0, s1, legacy).0.buffer)
  {
    var k' := Step(k, b, s0, s1, legacy).0;
    if k.mode == Goto && IsPrintable(b) {
      assert k'.buffer == k.buffer + [Char(b)];
      assert Char(b) as int == b;
    }
  }
}
