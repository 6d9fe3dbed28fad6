/**
 The texts a user may send to confirm or cancel a pending action, and how they are read.

 Strings are sequences of Unicode characters, as the source's rune loops see them.
 */
module ConfirmText {

  datatype Command = Confirm | Cancel

  /** `id` is empty when the text names no usable action id. */
  datatype Parsed = NotACommand | Parsed(command: Command, id: string)

  const CONFIRM_WORD: string := "确认"
  const CANCEL_WORD: string := "取消"
  const MAX_INT: nat := 0x7FFF_FFFF_FFFF_FFFF

  /** The Unicode White_Space characters, as Go's unicode.IsSpace lists them. */
  predicate IsSpace(c: char) {
    || '\t' <= c <= '\r' || c == ' ' || c == '\U{0085}' || c == '\U{00A0}' || c == '\U{1680}'
    || '\U{2000}' <= c <= '\U{200A}' || c == '\U{2028}' || c == '\U{2029}' || c == '\U{202F}'
    || c == '\U{205F}' || c == '\U{3000}'
  }

  predicate IsDigit(c: char) {
    '0' <= c <= '9'
  }

  predicate AllSpace(s: string) {
    forall i :: 0 <= i < |s| ==> IsSpace(s[i])
  }

  predicate NoSpace(s: string) {
    forall i :: 0 <= i < |s| ==> !IsSpace(s[i])
  }

  predicate AllDigits(s: string) {
    forall i :: 0 <= i < |s| ==> IsDigit(s[i])
  }

  predicate NoDigit(s: string) {
    forall i :: 0 <= i < |s| ==> !IsDigit(s[i])
  }

  /** Nothing follows, or what follows is set off by white space. */
  predicate SetOff(s: string) {
    s == "" || IsSpace(s[0])
  }

  function TrimLeft(s: string): string {
    if s != "" && IsSpace(s[0]) then TrimLeft(s[1..]) else s
  }

  function TrimRight(s: string): string {
    if s != "" && IsSpace(s[|s| - 1]) then TrimRight(s[..|s| - 1]) else s
  }

  function TrimSpace(s: string): string {
    TrimRight(TrimLeft(s))
  }

  /** The longest prefix without white space. */
  function FirstWord(s: string): (w: string)
    ensures |w| <= |s| && w == s[..|w|]
  {
    if s == "" || IsSpace(s[0]) then "" else [s[0]] + FirstWord(s[1..])
  }

  function Fields(s: string): seq<string>
    decreases |s|
  {
    if s == "" then []
    else if IsSpace(s[0]) then Fields(s[1..])
    else [FirstWord(s)] + Fields(s[|FirstWord(s)|..])
  }

  /**
   Lower case as far as the words below can tell: the only characters Go maps to one of their
   letters are the capital letters and the Kelvin sign.
   */
  function ToLower(s: string): string {
    seq(|s|, i requires 0 <= i < |s| =>
      if 'A' <= s[i] <= 'Z' then s[i] - 'A' + 'a' else if s[i] == '\U{212A}' then 'k' else s[i])
  }

  predicate HasPrefix(s: string, prefix: string) {
    |prefix| <= |s| && s[..|prefix|] == prefix
  }

  /** The digits of a text, in order. */
  function Digits(s: string): string {
    if s == "" then ""
    else Digits(s[..|s| - 1]) + if IsDigit(s[|s| - 1]) then [s[|s| - 1]] else ""
  }

  function DigitValue(c: char): nat
    requires IsDigit(c)
  {
    (c - '0') as nat
  }

  function ValueOf(s: string): nat
    requires AllDigits(s)
  {
    if s == "" then 0 else 10 * ValueOf(s[..|s| - 1]) + DigitValue(s[|s| - 1])
  }

  /** Whether the digits fit the platform's 64-bit int. */
  predicate Fits(s: string)
    requires AllDigits(s)
  {
    ValueOf(s) <= MAX_INT
  }

  predicate ShortConfirm(t: string) {
    ToLower(t) in ["y", "yes", "ok"] || t in [CONFIRM_WORD, "好", "行", "是", "对"]
  }

  predicate ShortCancel(t: string) {
    ToLower(t) in ["n", "no"] || t in [CANCEL_WORD, "不", "否"]
  }

  predicate ConfirmHead(word: string) {
    word in [CONFIRM_WORD, "同意", "执行", "yes", "YES"]
  }

  predicate CancelHead(word: string) {
    word in [CANCEL_WORD, "拒绝", "不执行", "no", "NO"]
  }

  /** The command of a text that is not a short word, and the part searched for an id. */
  datatype Reading = Unreadable | Reading(command: Command, token: string)

  function Read(raw: string): Reading
    requires raw != "" && TrimSpace(raw) == raw
  {
    var parts := Fields(raw);
    TrimmedHasField(raw);
    var rest := if |parts| >= 2 then TrimSpace(parts[1]) else raw;
    if ConfirmHead(parts[0]) then Reading(Confirm, rest)
    else if CancelHead(parts[0]) then Reading(Cancel, rest)
    else if HasPrefix(raw, CONFIRM_WORD) then Reading(Confirm, TrimSpace(raw[|CONFIRM_WORD|..]))
    else if HasPrefix(raw, CANCEL_WORD) then Reading(Cancel, TrimSpace(raw[|CANCEL_WORD|..]))
    else Unreadable
  }

  function UsableID(token: string): string {
    DigitsAreDigits(token);
    var id := Digits(token);
    if Fits(id) then id else ""
  }

  function Parse(s: string): Parsed {
    var raw := TrimSpace(s);
    TrimIdempotent(s);
    if raw == "" then NotACommand
    else if ShortConfirm(raw) then Parsed(Confirm, "")
    else if ShortCancel(raw) then Parsed(Cancel, "")
    else match Read(raw)
      case Unreadable => NotACommand
      case Reading(command, token) => Parsed(command, UsableID(token))
  }

  /** The parser in the source's form: it builds the id digit by digit. */
  method ParseConfirmCancel(s: string) returns (parsed: Parsed)
    ensures parsed == Parse(s)
  {
    var raw := TrimSpace(s);
    TrimIdempotent(s);
    if raw == "" {
      return NotACommand;
    }
    if ShortConfirm(raw) {
      return Parsed(Confirm, "");
    }
    if ShortCancel(raw) {
      return Parsed(Cancel, "");
    }
    var parts := Fields(raw);
    TrimmedHasField(raw);
    var command: Command;
    if ConfirmHead(parts[0]) {
      command := Confirm;
    } else if CancelHead(parts[0]) {
      command := Cancel;
    } else if HasPrefix(raw, CONFIRM_WORD) {
      command := Confirm;
      parts := [CONFIRM_WORD, TrimSpace(raw[|CONFIRM_WORD|..])];
      TrimIdempotent(raw[|CONFIRM_WORD|..]);
    } else if HasPrefix(raw, CANCEL_WORD) {
      command := Cancel;
      parts := [CANCEL_WORD, TrimSpace(raw[|CANCEL_WORD|..])];
      TrimIdempotent(raw[|CANCEL_WORD|..]);
    } else {
      return NotACommand;
    }
    var token := if |parts| >= 2 then TrimSpace(parts[1]) else raw;
    var id := "";
    for i := 0 to |token|
      invariant id == Digits(token[..i])
    {
      assert token[..i + 1][..i] == token[..i];
      if IsDigit(token[i]) {
        id := id + [token[i]];
      }
    }
    assert token[..|token|] == token;
    DigitsAreDigits(token);
    if id == "" || !Fits(id) {
      return Parsed(command, "");
    }
    return Parsed(command, id);
  }

  /** Whether a message is nothing but a confirmation or cancellation, so that it stays out of the history. */
  predicate IsConfirmCancelOnly(s: string) {
    var t := TrimSpace(s);
    t != "" &&
    (|| ToLower(t) in ["y", "yes", "ok"] || t in [CONFIRM_WORD, "好", "行"]
     || ToLower(t) in ["n", "no"] || t in [CANCEL_WORD, "不"]
     || ((HasPrefix(t, CONFIRM_WORD) || HasPrefix(t, CANCEL_WORD)) && |t| <= 24))
  }

  // ---------------------------------------------------------------------------
  // Facts about trimming, words and digits.
  // ---------------------------------------------------------------------------

  lemma {:induction false} TrimLeftEnds(s: string)
    ensures |TrimLeft(s)| <= |s| && TrimLeft(s) == s[|s| - |TrimLeft(s)|..]
    ensures TrimLeft(s) == "" || !IsSpace(TrimLeft(s)[0])
  {
    if s != "" && IsSpace(s[0]) {
      TrimLeftEnds(s[1..]);
    }
  }

  lemma {:induction false} TrimRightEnds(s: string)
    ensures |TrimRight(s)| <= |s| && TrimRight(s) == s[..|TrimRight(s)|]
    ensures TrimRight(s) == "" || !IsSpace(TrimRight(s)[|TrimRight(s)| - 1])
  {
    if s != "" && IsSpace(s[|s| - 1]) {
      TrimRightEnds(s[..|s| - 1]);
    }
  }

  lemma {:induction false} TrimIdempotent(s: string)
    ensures TrimSpace(TrimSpace(s)) == TrimSpace(s)
  {
    var left := TrimLeft(s);
    TrimLeftEnds(s);
    TrimRightEnds(left);
    var t := TrimRight(left);
    if t != "" {
      assert t[0] == left[0];
    }
  }

  lemma {:induction false} TrimmedHasField(raw: string)
    requires raw != "" && TrimSpace(raw) == raw
    ensures |Fields(raw)| >= 1 && Fields(raw)[0] == FirstWord(raw)
  {
    TrimLeftEnds(raw);
    TrimRightEnds(TrimLeft(raw));
    assert raw == TrimLeft(raw)[..|raw|];
  }

  lemma {:induction false} TrimLeftSkips(space: string, s: string)
    requires AllSpace(space) && (s == "" || !IsSpace(s[0]))
    ensures TrimLeft(space + s) == s
  {
    if space == "" {
      assert space + s == s;
    } else {
      assert (space + s)[1..] == space[1..] + s;
      TrimLeftSkips(space[1..], s);
    }
  }

  lemma {:induction false} TrimRightStops(s: string, tail: string)
    requires s != "" && !IsSpace(s[|s| - 1])
    ensures TrimRight(s + tail) == s + TrimRight(tail)
  {
    if tail == "" {
      assert s + tail == s;
    } else if IsSpace(tail[|tail| - 1]) {
      assert (s + tail)[..|s + tail| - 1] == s + tail[..|tail| - 1];
      TrimRightStops(s, tail[..|tail| - 1]);
    }
  }

  lemma {:induction false} FirstWordOf(word: string, tail: string)
    requires NoSpace(word) && SetOff(tail)
    ensures FirstWord(word + tail) == word
  {
    if word == "" {
      assert word + tail == tail;
    } else {
      assert (word + tail)[1..] == word[1..] + tail;
      FirstWordOf(word[1..], tail);
    }
  }

  lemma {:induction false} FieldsOfWord(word: string, tail: string)
    requires word != "" && NoSpace(word) && SetOff(tail)
    ensures Fields(word + tail) == [word] + Fields(tail)
  {
    FirstWordOf(word, tail);
    assert (word + tail)[|word|..] == tail;
  }

  lemma {:induction false} FieldsSkipSpace(space: string, s: string)
    requires AllSpace(space)
    ensures Fields(space + s) == Fields(s)
  {
    if space == "" {
      assert space + s == s;
    } else {
      assert (space + s)[1..] == space[1..] + s;
      FieldsSkipSpace(space[1..], s);
    }
  }

  lemma {:induction false} DigitsAreDigits(s: string)
    ensures AllDigits(Digits(s))
  {
    if s == "" {
    } else {
      DigitsAreDigits(s[..|s| - 1]);
    }
  }

  lemma {:induction false} DigitsConcat(a: string, b: string)
    ensures Digits(a + b) == Digits(a) + Digits(b)
  {
    if b == "" {
      assert a + b == a;
    } else {
      assert (a + b)[..|a + b| - 1] == a + b[..|b| - 1];
      DigitsConcat(a, b[..|b| - 1]);
    }
  }

  lemma {:induction false} DigitsOfNoise(s: string)
    requires NoDigit(s)
    ensures Digits(s) == ""
  {
    if s == "" {
    } else {
      DigitsOfNoise(s[..|s| - 1]);
    }
  }

  lemma {:induction false} DigitsOfDigits(s: string)
    requires AllDigits(s)
    ensures Digits(s) == s
  {
    if s == "" {
    } else {
      DigitsOfDigits(s[..|s| - 1]);
    }
  }

  lemma {:induction false} TrimLeftKeepsDigits(s: string)
    ensures Digits(TrimLeft(s)) == Digits(s)
  {
    if s != "" && IsSpace(s[0]) {
      TrimLeftKeepsDigits(s[1..]);
      assert s == [s[0]] + s[1..];
      DigitsConcat([s[0]], s[1..]);
      DigitsOfNoise([s[0]]);
    }
  }

  lemma {:induction false} TrimRightKeepsDigits(s: string)
    ensures Digits(TrimRight(s)) == Digits(s)
  {
    if s != "" && IsSpace(s[|s| - 1]) {
      TrimRightKeepsDigits(s[..|s| - 1]);
    }
  }

  lemma {:induction false} TrimKeepsDigits(s: string)
    ensures Digits(TrimSpace(s)) == Digits(s)
  {
    TrimLeftKeepsDigits(s);
    TrimRightKeepsDigits(TrimLeft(s));
  }

  // ---------------------------------------------------------------------------
  // Round trip of the printed reply.
  // ---------------------------------------------------------------------------

  function Word(command: Command): string {
    match command
    case Confirm => CONFIRM_WORD
    case Cancel => CANCEL_WORD
  }

  /** An id decorated with characters that are neither digits nor white space (bold marks, brackets, ...). */
  predicate Decorated(text: string, pre: string, id: string, post: string) {
    text == pre + id + post && NoSpace(text) && NoDigit(pre) && NoDigit(post) && AllDigits(id) && id != ""
  }

  lemma {:induction false} DecoratedDigits(text: string, pre: string, id: string, post: string)
    requires Decorated(text, pre, id, post)
    ensures Digits(text) == id
  {
    DigitsConcat(pre + id, post);
    DigitsConcat(pre, id);
    DigitsOfNoise(pre);
    DigitsOfNoise(post);
    DigitsOfDigits(id);
  }

  lemma {:induction false} WordShape(command: Command)
    ensures |Word(command)| == 2 && NoSpace(Word(command)) && NoDigit(Word(command))
    ensures command == Confirm ==> Word(command)[0] == '确'
    ensures command == Cancel ==> Word(command)[0] == '取'
  {
  }

  /** A text longer than two characters that begins with one of the two words is no short word. */
  lemma {:induction false} NotShort(command: Command, raw: string)
    requires HasPrefix(raw, Word(command)) && |raw| > 2
    ensures !ShortConfirm(raw) && !ShortCancel(raw)
  {
    WordShape(command);
    assert raw[0] == raw[..2][0] == Word(command)[0];
    assert ToLower(raw)[0] == raw[0];
    assert |ToLower(raw)| == |raw|;
  }

  lemma {:induction false} FieldsWithGap(word: string, gap: string, text: string, tail: string)
    requires word != "" && NoSpace(word) && gap != "" && AllSpace(gap) && text != "" && NoSpace(text) && SetOff(tail)
    ensures Fields(word + gap + text + tail) == [word, text] + Fields(tail)
  {
    assert word + gap + text + tail == word + (gap + (text + tail));
    FieldsOfWord(word, gap + (text + tail));
    FieldsSkipSpace(gap, text + tail);
    FieldsOfWord(text, tail);
    assert [word] + ([text] + Fields(tail)) == [word, text] + Fields(tail);
  }

  /** Written with a gap: the second word is searched for the id, whatever follows it. */
  lemma {:induction false} ReadWithGap(command: Command, gap: string, text: string, tail: string, raw: string)
    requires raw == Word(command) + gap + text + tail && TrimSpace(raw) == raw && raw != ""
    requires gap != "" && AllSpace(gap) && text != "" && NoSpace(text) && SetOff(tail)
    ensures Read(raw) == Reading(command, TrimSpace(text))
  {
    WordShape(command);
    FieldsWithGap(Word(command), gap, text, tail);
    HeadOfWord(command);
    var parts := Fields(raw);
    assert parts[0] == Word(command) && parts[1] == text && |parts| >= 2;
  }

  lemma {:induction false} HeadOfWord(command: Command)
    ensures ConfirmHead(Word(command)) <==> command == Confirm
    ensures CancelHead(Word(command)) <==> command == Cancel
  {
    assert Word(Confirm)[0] == '确' && Word(Cancel)[0] == '取';
    assert "同意"[0] == '同' && "执行"[0] == '执' && "拒绝"[0] == '拒' && |"不执行"| == 3;
    assert |"yes"| == 3 && |"YES"| == 3 && "no"[0] == 'n' && "NO"[0] == 'N';
  }

  /** Written without a gap: the whole remainder is searched for the id. */
  lemma {:induction false} ReadWithoutGap(command: Command, text: string, tail: string, raw: string)
    requires raw == Word(command) + text + tail && TrimSpace(raw) == raw && raw != ""
    requires text != "" && NoSpace(text) && SetOff(tail)
    ensures Read(raw).Reading? && Read(raw).command == command && Digits(Read(raw).token) == Digits(text + tail)
  {
    WordShape(command);
    var head := Word(command) + text;
    assert raw == head + tail;
    FieldsOfWord(head, tail);
    assert Fields(raw)[0] == head;
    LongHead(command, head);
    PrefixOfWord(command, raw);
    assert raw[2..] == text + tail;
    TrimKeepsDigits(text + tail);
  }

  /** A longer word that begins with one of the two is none of the command words. */
  lemma {:induction false} LongHead(command: Command, head: string)
    requires HasPrefix(head, Word(command)) && |head| > 2
    ensures !ConfirmHead(head) && !CancelHead(head)
  {
    WordShape(command);
    assert head[0] == head[..2][0];
  }

  lemma {:induction false} PrefixOfWord(command: Command, raw: string)
    requires HasPrefix(raw, Word(command))
    ensures HasPrefix(raw, CONFIRM_WORD) <==> command == Confirm
    ensures HasPrefix(raw, CANCEL_WORD) <==> command == Cancel
  {
    WordShape(command);
    assert Word(Confirm)[0] != Word(Cancel)[0];
  }

  /** What the text between the outer white space is read as. */
  lemma {:induction false} ReadReply(command: Command, gap: string, text: string, pre: string, id: string,
          post: string, tail: string, raw: string)
    requires raw == Word(command) + gap + text + tail && TrimSpace(raw) == raw && raw != ""
    requires AllSpace(gap) && SetOff(tail) && Decorated(text, pre, id, post)
    requires gap == "" ==> NoDigit(tail)
    ensures Read(raw).Reading? && Read(raw).command == command && Digits(Read(raw).token) == id
  {
    DecoratedDigits(text, pre, id, post);
    if gap == "" {
      assert Word(command) + gap == Word(command);
      ReadWithoutGap(command, text, tail, raw);
      DigitsConcat(text, tail);
      DigitsOfNoise(tail);
    } else {
      TrimKeepsDigits(text);
      ReadWithGap(command, gap, text, tail, raw);
    }
  }

  lemma {:induction false} ParseOfReading(s: string, raw: string, command: Command, id: string)
    requires TrimSpace(s) == raw && raw != "" && TrimSpace(raw) == raw && !ShortConfirm(raw) && !ShortCancel(raw)
    requires Read(raw).Reading? && Read(raw).command == command && Digits(Read(raw).token) == id
    requires AllDigits(id) && Fits(id)
    ensures Parse(s) == Parsed(command, id)
  {
  }

  /**
   Round trip: the reply text the agent prints ("确认 id" or "取消 id"), with or without the space, with
   decoration around the id, with white space around it and with words after it, is read back as that
   command and that id. Without the space the trailing words must not contain digits of their own.
   */
  lemma {:induction false} ReplyRoundTrip(command: Command, lead: string, gap: string, text: string, pre: string,
          id: string, post: string, tail: string)
    requires AllSpace(lead) && AllSpace(gap) && SetOff(tail)
    requires Decorated(text, pre, id, post) && Fits(id)
    requires gap == "" ==> NoDigit(tail)
    ensures Parse(lead + Word(command) + gap + text + tail) == Parsed(command, id)
  {
    var core := Word(command) + gap + text;
    var raw := core + TrimRight(tail);
    CoreEnds(command, gap, text, core);
    TrimAround(lead, core, tail);
    assert lead + Word(command) + gap + text + tail == lead + core + tail;
    TrimIdempotent(lead + core + tail);
    NotShort(command, raw);
    ReadReply(command, gap, text, pre, id, post, TrimRight(tail), raw);
    ParseOfReading(lead + Word(command) + gap + text + tail, raw, command, id);
  }

  lemma {:induction false} CoreEnds(command: Command, gap: string, text: string, core: string)
    requires core == Word(command) + gap + text && text != "" && NoSpace(text)
    ensures |core| > 2 && HasPrefix(core, Word(command)) && !IsSpace(core[0]) && !IsSpace(core[|core| - 1])
    ensures forall t :: HasPrefix(core + t, Word(command))
  {
    WordShape(command);
    assert core[0] == Word(command)[0];
    assert core[|core| - 1] == text[|text| - 1];
    assert core[..2] == Word(command);
    forall t: string
      ensures HasPrefix(core + t, Word(command))
    {
      assert (core + t)[..2] == core[..2];
    }
  }

  /** White space around a text goes, what the text itself is stays. */
  lemma {:induction false} TrimAround(lead: string, core: string, tail: string)
    requires AllSpace(lead) && SetOff(tail)
    requires core != "" && !IsSpace(core[0]) && !IsSpace(core[|core| - 1])
    ensures TrimSpace(lead + core + tail) == core + TrimRight(tail)
    ensures SetOff(TrimRight(tail)) && (NoDigit(tail) ==> NoDigit(TrimRight(tail)))
  {
    assert lead + core + tail == lead + (core + tail);
    assert (core + tail)[0] == core[0];
    TrimLeftSkips(lead, core + tail);
    TrimRightStops(core, tail);
    TrimRightEnds(tail);
  }

  /** The eight-digit ids the agent prints always fit an int. */
  lemma {:induction false} EightDigitsFit(id: string)
    requires AllDigits(id) && |id| <= 8
    ensures Fits(id)
  {
    ValueBelowPower(id, 8);
  }

  function Power10(n: nat): nat {
    if n == 0 then 1 else 10 * Power10(n - 1)
  }

  lemma {:induction false} ValueBelowPower(s: string, n: nat)
    requires AllDigits(s) && |s| <= n
    ensures ValueOf(s) < Power10(n)
    ensures n == 8 ==> Power10(n) <= MAX_INT
  {
    if n == 0 {
    } else {
      if s == "" {
        ValueBelowPower(s, n - 1);
      } else {
        ValueBelowPower(s[..|s| - 1], n - 1);
      }
    }
    if n == 8 {
      assert Power10(8) == 100_000_000 by {
        assert Power10(4) == 10_000;
      }
    }
  }

  /** Every message kept out of the history as a bare command is one the parser accepts. */
  lemma {:induction false} OnlyMeansParsed(s: string)
    requires IsConfirmCancelOnly(s)
    ensures Parse(s).Parsed?
  {
    TrimIdempotent(s);
  }

  // ---------------------------------------------------------------------------
  // Which texts mean yes, and which mean no.
  // ---------------------------------------------------------------------------

  /** A trimmed text that confirms: a short word, a first word, or a beginning. */
  predicate SaysYes(t: string) {
    || ToLower(t) in ["y", "yes", "ok"] || t in ["好", "行", "是", "对"]
    || FirstWord(t) in ["同意", "执行", "yes", "YES"] || HasPrefix(t, "确认")
  }

  /** A trimmed text that cancels. */
  predicate SaysNo(t: string) {
    || ToLower(t) in ["n", "no"] || t in ["不", "否"]
    || FirstWord(t) in ["拒绝", "不执行", "no", "NO"] || HasPrefix(t, "取消")
  }

  predicate YesChar(c: char) {
    c in {'y', 'Y', 'o', 'O', '好', '行', '是', '对', '同', '执', '确'}
  }

  predicate NoChar(c: char) {
    c in {'n', 'N', '不', '否', '拒', '取'}
  }

  /** A text with that first word, which is not empty, begins with its first character. */
  lemma {:induction false} WordBegins(t: string, word: string)
    requires FirstWord(t) == word && word != ""
    ensures t != "" && t[0] == word[0]
  {
  }

  lemma {:induction false} YesBegins(t: string)
    requires SaysYes(t)
    ensures t != "" && YesChar(t[0])
  {
    assert |ToLower(t)| == |t|;
    if ToLower(t) in ["y", "yes", "ok"] {
      assert "y"[0] == 'y' && "yes"[0] == 'y' && "ok"[0] == 'o' && |"y"| == 1 && |"yes"| == 3 && |"ok"| == 2;
      assert ToLower(t)[0] in {'y', 'o'};
    } else if t in ["好", "行", "是", "对"] {
      assert "好"[0] == '好' && "行"[0] == '行' && "是"[0] == '是' && "对"[0] == '对';
    } else if FirstWord(t) in ["同意", "执行", "yes", "YES"] {
      assert "同意"[0] == '同' && "执行"[0] == '执' && "yes"[0] == 'y' && "YES"[0] == 'Y';
      WordBegins(t, FirstWord(t));
    } else {
      assert "确认"[0] == '确' && t[0] == t[..2][0];
    }
  }

  lemma {:induction false} NoBegins(t: string)
    requires SaysNo(t)
    ensures t != "" && NoChar(t[0])
  {
    assert |ToLower(t)| == |t|;
    if ToLower(t) in ["n", "no"] {
      assert "n"[0] == 'n' && "no"[0] == 'n' && |"n"| == 1 && |"no"| == 2;
      assert ToLower(t)[0] == 'n';
    } else if t in ["不", "否"] {
      assert "不"[0] == '不' && "否"[0] == '否';
    } else if FirstWord(t) in ["拒绝", "不执行", "no", "NO"] {
      assert "拒绝"[0] == '拒' && "不执行"[0] == '不' && "no"[0] == 'n' && "NO"[0] == 'N';
      WordBegins(t, FirstWord(t));
    } else {
      assert "取消"[0] == '取' && t[0] == t[..2][0];
    }
  }

  lemma {:induction false} NeverBoth(t: string)
    ensures !(SaysYes(t) && SaysNo(t))
  {
    if SaysYes(t) && SaysNo(t) {
      YesBegins(t);
      NoBegins(t);
    }
  }

  lemma {:induction false} WholeIsPrefix(t: string, word: string)
    requires t == word || FirstWord(t) == word
    ensures HasPrefix(t, word)
  {
    assert t == word ==> t[..|word|] == word;
  }

  /** The parser's four groups of words, gathered by meaning. */
  lemma {:induction false} GroupsMean(t: string)
    requires t != "" && TrimSpace(t) == t
    ensures ShortConfirm(t) || ConfirmHead(FirstWord(t)) || HasPrefix(t, CONFIRM_WORD) <==> SaysYes(t)
    ensures ShortCancel(t) || CancelHead(FirstWord(t)) || HasPrefix(t, CANCEL_WORD) <==> SaysNo(t)
  {
    if t == "确认" || FirstWord(t) == "确认" {
      WholeIsPrefix(t, "确认");
    }
    if t == "取消" || FirstWord(t) == "取消" {
      WholeIsPrefix(t, "取消");
    }
  }

  /**
   What the parser answers, in words: a text confirms exactly if, trimmed, it is y, yes or ok in any case or one
   of four characters, or its first word is one of four, or it begins with the printed word; and likewise it cancels.
   */
  lemma {:induction false} CommandMeans(s: string)
    ensures var t := TrimSpace(s);
      && (Parse(s).Parsed? && Parse(s).command == Confirm <==> SaysYes(t))
      && (Parse(s).Parsed? && Parse(s).command == Cancel <==> SaysNo(t))
  {
    var t := TrimSpace(s);
    TrimIdempotent(s);
    NeverBoth(t);
    if t == "" {
      EmptySaysNothing();
    } else {
      TrimmedHasField(t);
      GroupsMean(t);
    }
  }

  lemma {:induction false} EmptySaysNothing()
    ensures !SaysYes("") && !SaysNo("")
  {
    assert ToLower("") == "" && FirstWord("") == "";
  }

  predicate StartsWithWord(t: string) {
    HasPrefix(t, CONFIRM_WORD) || HasPrefix(t, CANCEL_WORD)
  }

  /** The command words only the parser knows. */
  predicate OtherHead(word: string) {
    word in ["同意", "执行", "yes", "YES", "拒绝", "不执行", "no", "NO"]
  }

  lemma {:induction false} StartsHasNoOtherHead(t: string)
    requires StartsWithWord(t) && |t| > 2
    ensures !ShortConfirm(t) && !ShortCancel(t)
  {
    NotShort(if HasPrefix(t, CONFIRM_WORD) then Confirm else Cancel, t);
  }

  /** The heads of a text that begins with neither word: the parser knows it by an other head only. */
  lemma {:induction false} HeadsOfOthers(t: string)
    requires t != "" && TrimSpace(t) == t && !StartsWithWord(t)
    ensures Read(t).Reading? <==> OtherHead(FirstWord(t))
  {
    TrimmedHasField(t);
    assert FirstWord(t) == CONFIRM_WORD ==> HasPrefix(t, CONFIRM_WORD);
    assert FirstWord(t) == CANCEL_WORD ==> HasPrefix(t, CANCEL_WORD);
  }

  lemma {:induction false} StartsIsRead(t: string)
    requires t != "" && TrimSpace(t) == t && StartsWithWord(t)
    ensures Read(t).Reading?
  {
    TrimmedHasField(t);
  }

  /**
   Exactly which texts are acted upon although they stay in the history as ordinary text: three short words,
   what begins with one of the two words and is longer than 24 characters, and what is no short word, begins
   with neither and has one of eight other command words as its first.
   */
  lemma {:induction false} ActedUponYetKeptIff(s: string)
    ensures var t := TrimSpace(s);
      Parse(s).Parsed? && !IsConfirmCancelOnly(s) <==>
      || t in ["是", "对", "否"]
      || (StartsWithWord(t) && |t| > 24)
      || (t != "" && !ShortConfirm(t) && !ShortCancel(t) && !StartsWithWord(t) && OtherHead(FirstWord(t)))
  {
    var t := TrimSpace(s);
    TrimIdempotent(s);
    if t in ["是", "对", "否"] {
      ThreeShortWords(t);
    } else if t != "" && StartsWithWord(t) {
      StartsIsRead(t);
      if |t| > 24 {
        StartsHasNoOtherHead(t);
        assert |ToLower(t)| == |t|;
      }
    } else if t != "" {
      HeadsOfOthers(t);
    }
  }

  lemma {:induction false} ThreeShortWords(t: string)
    requires t in ["是", "对", "否"]
    ensures (ShortConfirm(t) || ShortCancel(t)) && |t| == 1
    ensures !(ToLower(t) in ["y", "yes", "ok", "n", "no"]) && t !in [CONFIRM_WORD, "好", "行", CANCEL_WORD, "不"]
  {
    assert ToLower(t)[0] == t[0];
    assert "y"[0] == 'y' && "n"[0] == 'n' && "好"[0] == '好' && "行"[0] == '行' && "不"[0] == '不';
    assert "是"[0] == '是' && "对"[0] == '对' && "否"[0] == '否';
  }

  /**
   The 24-character guard is not in the parser: a longer sentence that merely begins with one of the
   two words is kept in the history as ordinary text, yet still read as a command.
   */
  lemma {:induction false} LongSentenceIsStillACommand(s: string, command: Command)
    requires HasPrefix(TrimSpace(s), Word(command)) && |TrimSpace(s)| > 24
    ensures !IsConfirmCancelOnly(s)
    ensures Parse(s).Parsed?
    ensures NoDigit(TrimSpace(s)) ==> Parse(s).id == ""
  {
    var raw := TrimSpace(s);
    TrimIdempotent(s);
    NotShort(command, raw);
    WordShape(command);
    assert |ToLower(raw)| == |raw|;
    StartsIsRead(raw);
    if NoDigit(raw) {
      NoDigitsToRead(raw, Read(raw).token);
    }
  }

  lemma {:induction false} TokenNoDigit(token: string)
    requires NoDigit(token)
    ensures Digits(token) == Digits(TrimSpace(token)) == ""
  {
    DigitsOfNoise(token);
    TrimKeepsDigits(token);
  }

  /** Where a reading searches for the id. */
  lemma {:induction false} TokenOfReading(raw: string, token: string)
    requires raw != "" && TrimSpace(raw) == raw && Read(raw).Reading? && Read(raw).token == token
    ensures || token == raw
            || (|Fields(raw)| >= 2 && token == TrimSpace(Fields(raw)[1]))
            || (|raw| >= 2 && token == TrimSpace(raw[2..]))
  {
    assert |CONFIRM_WORD| == 2 && |CANCEL_WORD| == 2;
  }

  lemma {:induction false} NoDigitsToRead(raw: string, token: string)
    requires raw != "" && TrimSpace(raw) == raw && NoDigit(raw)
    requires Read(raw).Reading? && Read(raw).token == token
    ensures Digits(token) == ""
  {
    TokenOfReading(raw, token);
    if token == raw {
      TokenNoDigit(raw);
    } else if |Fields(raw)| >= 2 && token == TrimSpace(Fields(raw)[1]) {
      FieldsNoDigit(raw);
      TokenNoDigit(Fields(raw)[1]);
    } else {
      TokenNoDigit(raw[2..]);
    }
  }

  lemma {:induction false} FieldsNoDigit(s: string)
    requires NoDigit(s)
    ensures forall k :: 0 <= k < |Fields(s)| ==> NoDigit(Fields(s)[k])
    decreases |s|
  {
    if s == "" {
    } else {
      if IsSpace(s[0]) {
        FieldsNoDigit(s[1..]);
      } else {
        FieldsNoDigit(s[|FirstWord(s)|..]);
      }
    }
  }
}
