/**
 What typing on the keyboard gives (src/kernel/c_io.c:518-632), from the scan codes alone: when shift and
 control are on, and which character each press puts in the ring.
 */
module ConsoleKeys {
  import opened Common
  import opened ConsoleRing

  // ---------- the modifiers over a run ----------

  /** This event is one of these keys. */
  predicate Among(e: Event, codes: set<Byte>) {
    e.Key? && e.code in codes
  }

  ghost predicate NoneAmong(events: seq<Event>, codes: set<Byte>) {
    forall j :: 0 <= j < |events| ==> !Among(events[j], codes)
  }

  /** The last of these keys is event `i`. */
  ghost predicate LastAmong(events: seq<Event>, codes: set<Byte>, i: nat) {
    i < |events| && Among(events[i], codes) && NoneAmong(events[i + 1..], codes)
  }

  lemma {:induction false} LastOrNone(events: seq<Event>, codes: set<Byte>) returns (i: nat)
    ensures NoneAmong(events, codes) || LastAmong(events, codes, i)
  {
    if events == [] {
      i := 0;
    } else {
      i := LastOrNone(events[1..], codes);
      if NoneAmong(events[1..], codes) {
        i := 0;
        NoneFrom(events, codes);
      } else {
        assert events[1..][i + 1..] == events[i + 1 + 1..];
        i := i + 1;
      }
    }
  }

  lemma NoneFrom(events: seq<Event>, codes: set<Byte>)
    requires events != [] && NoneAmong(events[1..], codes)
    ensures if Among(events[0], codes) then LastAmong(events, codes, 0) else NoneAmong(events, codes)
  {
    assert events[0 + 1..] == events[1..];
    forall j | 1 <= j < |events| ensures !Among(events[j], codes) {
      assert events[1..][j - 1] == events[j];
    }
  }

  lemma NoneRest(events: seq<Event>, codes: set<Byte>)
    requires events != [] && NoneAmong(events, codes)
    ensures !Among(events[0], codes) && NoneAmong(events[1..], codes)
  {
    forall j | 0 <= j < |events[1..]| ensures !Among(events[1..][j], codes) {
      assert events[1..][j] == events[j + 1];
    }
  }

  /** Without a key of the kind, shift stays. */
  lemma {:induction false} ShiftStays(t: Table, s: State, events: seq<Event>)
    requires ValidTable(t) && ConsoleRing.Valid(s.k) && NoneAmong(events, {0x2a, 0x36, 0xaa, 0xb6})
    ensures Run(t, s, events).k.shift == s.k.shift
    decreases |events|
  {
    if events != [] {
      NoneRest(events, {0x2a, 0x36, 0xaa, 0xb6});
      ShiftStays(t, Step(t, s, events[0]), events[1..]);
    }
  }

  lemma {:induction false} ShiftIsLast(t: Table, s: State, events: seq<Event>, i: nat)
    requires ValidTable(t) && ConsoleRing.Valid(s.k) && LastAmong(events, {0x2a, 0x36, 0xaa, 0xb6}, i)
    ensures Run(t, s, events).k.shift <==> Among(events[i], {0x2a, 0x36})
    decreases |events|
  {
    if i == 0 {
      assert events[0 + 1..] == events[1..];
      ShiftStays(t, Step(t, s, events[0]), events[1..]);
    } else {
      assert events[1..][i - 1 + 1..] == events[i + 1..];
      ShiftIsLast(t, Step(t, s, events[0]), events[1..], i - 1);
    }
  }

  lemma {:induction false} CtrlStays(t: Table, s: State, events: seq<Event>)
    requires ValidTable(t) && ConsoleRing.Valid(s.k) && NoneAmong(events, {0x1d, 0x9d})
    ensures Run(t, s, events).k.ctrl == s.k.ctrl
    decreases |events|
  {
    if events != [] {
      NoneRest(events, {0x1d, 0x9d});
      CtrlStays(t, Step(t, s, events[0]), events[1..]);
    }
  }

  lemma {:induction false} CtrlIsLast(t: Table, s: State, events: seq<Event>, i: nat)
    requires ValidTable(t) && ConsoleRing.Valid(s.k) && LastAmong(events, {0x1d, 0x9d}, i)
    ensures Run(t, s, events).k.ctrl <==> Among(events[i], {0x1d})
    decreases |events|
  {
    if i == 0 {
      assert events[0 + 1..] == events[1..];
      CtrlStays(t, Step(t, s, events[0]), events[1..]);
    } else {
      assert events[1..][i - 1 + 1..] == events[i + 1..];
      CtrlIsLast(t, Step(t, s, events[0]), events[1..], i - 1);
    }
  }

  /** The last press or release of a shift key was a press, or there was none and shift was on before. */
  ghost predicate ShiftOn(events: seq<Event>, before: bool) {
    || (exists i: nat :: LastAmong(events, {0x2a, 0x36, 0xaa, 0xb6}, i) && Among(events[i], {0x2a, 0x36}))
    || (NoneAmong(events, {0x2a, 0x36, 0xaa, 0xb6}) && before)
  }

  /** And so for the control key. */
  ghost predicate CtrlOn(events: seq<Event>, before: bool) {
    || (exists i: nat :: LastAmong(events, {0x1d, 0x9d}, i) && Among(events[i], {0x1d}))
    || (NoneAmong(events, {0x1d, 0x9d}) && before)
  }

  /** After any run shift is on if and only if the keys of the run say so. */
  lemma ShiftFollowsKeys(t: Table, s: State, events: seq<Event>)
    requires ValidTable(t) && ConsoleRing.Valid(s.k)
    ensures Run(t, s, events).k.shift <==> ShiftOn(events, s.k.shift)
  {
    var keys: set<Byte> := {0x2a, 0x36, 0xaa, 0xb6};
    var i := LastOrNone(events, keys);
    if NoneAmong(events, keys) {
      ShiftStays(t, s, events);
    } else {
      ShiftIsLast(t, s, events, i);
      forall j: nat | LastAmong(events, keys, j) ensures j == i {
        LastOnce(events, keys, i, j);
      }
    }
  }

  lemma CtrlFollowsKeys(t: Table, s: State, events: seq<Event>)
    requires ValidTable(t) && ConsoleRing.Valid(s.k)
    ensures Run(t, s, events).k.ctrl <==> CtrlOn(events, s.k.ctrl)
  {
    var keys: set<Byte> := {0x1d, 0x9d};
    var i := LastOrNone(events, keys);
    if NoneAmong(events, keys) {
      CtrlStays(t, s, events);
    } else {
      CtrlIsLast(t, s, events, i);
      forall j: nat | LastAmong(events, keys, j) ensures j == i {
        LastOnce(events, keys, i, j);
      }
    }
  }

  lemma LastOnce(events: seq<Event>, codes: set<Byte>, i: nat, j: nat)
    requires LastAmong(events, codes, i) && LastAmong(events, codes, j)
    ensures i == j
  {
    LastStands(events, codes, i);
    LastStands(events, codes, j);
  }

  lemma LastStands(events: seq<Event>, codes: set<Byte>, i: nat)
    requires LastAmong(events, codes, i)
    ensures forall j :: i < j < |events| ==> !Among(events[j], codes)
  {
    forall j | i < j < |events| ensures !Among(events[j], codes) {
      assert events[i + 1..][j - i - 1] == events[j];
    }
  }

  // ---------- the characters ----------

  /**
   The press of any other key accepts its character, from the row of the table that shift selects, its low
   five bits alone under control, if fewer than 199 are waiting; else it changes nothing.
   */
  lemma PressAccepts(t: Table, s: State, code: Byte)
    requires ValidTable(t) && Inv(s) && code < 0x80 && code !in {0x2a, 0x36, 0x1d}
    ensures var c := t[if s.k.shift then 1 else 0][code];
            var r, got := Step(t, s, Key(code)), if s.k.ctrl then c % 32 else c;
            if |Pending(s.k)| < 199 then
              && r.accepted == s.accepted + [got] && Pending(r.k) == Pending(s.k) + [got] && r.returned == s.returned
              && r.k.shift == s.k.shift && r.k.ctrl == s.k.ctrl
            else r == s
  {
    PendingLength(s.k);
    if |Pending(s.k)| < 199 {
      PutAppends(s.k, Produced(t, s.k, code));
    }
  }

  /** A release, and the press of a modifier, accept nothing. */
  lemma OthersAcceptNothing(t: Table, s: State, code: Byte)
    requires ValidTable(t) && Inv(s) && (code >= 0x80 || code in {0x2a, 0x36, 0x1d})
    ensures var r := Step(t, s, Key(code));
            r.accepted == s.accepted && Pending(r.k) == Pending(s.k) && r.returned == s.returned
  {}

  lemma {:induction false} RunThen(t: Table, s: State, events: seq<Event>, e: Event)
    requires ValidTable(t) && ConsoleRing.Valid(s.k)
    ensures Run(t, s, events + [e]) == Step(t, Run(t, s, events), e)
    decreases |events|
  {
    if events == [] {
      assert (events + [e])[1..] == [] && Run(t, Step(t, s, e), []) == Step(t, s, e);
    } else {
      assert (events + [e])[1..] == events[1..] + [e];
      RunThen(t, Step(t, s, events[0]), events[1..], e);
    }
  }

  /** What a press accepts after any run of keys and reads: the keys alone select row and mask. */
  lemma PressAfterRun(t: Table, s: State, events: seq<Event>, code: Byte)
    requires ValidTable(t) && Inv(s) && code < 0x80 && code !in {0x2a, 0x36, 0x1d}
    requires |Pending(Run(t, s, events).k)| < 199
    ensures var c := t[if ShiftOn(events, s.k.shift) then 1 else 0][code];
            Run(t, s, events + [Key(code)]).accepted
            == Run(t, s, events).accepted + [if CtrlOn(events, s.k.ctrl) then c % 32 else c]
  {
    RunKeepsInv(t, s, events);
    ShiftFollowsKeys(t, s, events);
    CtrlFollowsKeys(t, s, events);
    PressAccepts(t, Run(t, s, events), code);
    RunThen(t, s, events, Key(code));
  }

  // ---------- the table of the console ----------

  /** Without shift; 255 stands for a key without a character. */
  function PlainKey(code: Byte): (c: Byte) {
    if code < 0x10 then [255, 27, 49, 50, 51, 52, 53, 54, 55, 56, 57, 48, 45, 61, 8, 9][code]
    else if code < 0x20 then [113, 119, 101, 114, 116, 121, 117, 105, 111, 112, 91, 93, 10, 255, 97, 115][code - 0x10]
    else if code < 0x30 then [100, 102, 103, 104, 106, 107, 108, 59, 39, 96, 255, 92, 122, 120, 99, 118][code - 0x20]
    else if code < 0x40 then [98, 110, 109, 44, 46, 47, 255, 42, 255, 32, 255, 255, 255, 255, 255, 255][code - 0x30]
    else if code < 0x50 then [255, 255, 255, 255, 255, 255, 255, 55, 56, 57, 45, 52, 53, 54, 43, 49][code - 0x40]
    else if code < 0x60 then [50, 51, 48, 46, 255, 255, 255, 255, 255, 255, 255, 255, 255, 255, 255, 255][code - 0x50]
    else 255
  }

  /** With shift. */
  function ShiftedKey(code: Byte): (c: Byte) {
    if code < 0x10 then [255, 27, 33, 64, 35, 36, 37, 94, 38, 42, 40, 41, 95, 43, 8, 9][code]
    else if code < 0x20 then [81, 87, 69, 82, 84, 89, 85, 73, 79, 80, 123, 125, 10, 255, 65, 83][code - 0x10]
    else if code < 0x30 then [68, 70, 71, 72, 74, 75, 76, 58, 34, 126, 255, 124, 90, 88, 67, 86][code - 0x20]
    else if code < 0x40 then [66, 78, 77, 60, 62, 63, 255, 42, 255, 32, 255, 255, 255, 255, 255, 255][code - 0x30]
    else if code < 0x50 then [255, 255, 255, 255, 255, 255, 255, 55, 56, 57, 45, 52, 53, 54, 43, 49][code - 0x40]
    else if code < 0x60 then [50, 51, 48, 46, 255, 255, 255, 255, 255, 255, 255, 255, 255, 255, 255, 255][code - 0x50]
    else 255
  }

  const SCAN_CODE: Table :=
    [seq<Byte>(128, i requires 0 <= i < 128 => PlainKey(i)), seq<Byte>(128, i requires 0 <= i < 128 => ShiftedKey(i))]

  /** Between q and p, a and l, z and m. */
  predicate LetterKey(code: Byte) {
    0x10 <= code <= 0x19 || 0x1e <= code <= 0x26 || 0x2c <= code <= 0x32
  }

  /**
   A letter key gives a small letter, with shift its capital, and with control the letter's number in the
   alphabet whether shift is on or not.
   */
  lemma LetterKeys(code: Byte)
    requires LetterKey(code)
    ensures ValidTable(SCAN_CODE)
    ensures var c := SCAN_CODE[0][code];
            97 <= c <= 122 && SCAN_CODE[1][code] == c - 32 && c % 32 == SCAN_CODE[1][code] % 32 == c - 96
  {
    if code < 0x1e {
      TopRow(code);
    } else if code < 0x2c {
      HomeRow(code);
    } else {
      BottomRow(code);
    }
  }

  lemma TopRow(code: Byte)
    requires 0x10 <= code <= 0x19
    ensures 97 <= PlainKey(code) <= 122 && ShiftedKey(code) == PlainKey(code) - 32
  {}

  lemma HomeRow(code: Byte)
    requires 0x1e <= code <= 0x26
    ensures 97 <= PlainKey(code) <= 122 && ShiftedKey(code) == PlainKey(code) - 32
  {}

  lemma BottomRow(code: Byte)
    requires 0x2c <= code <= 0x32
    ensures 97 <= PlainKey(code) <= 122 && ShiftedKey(code) == PlainKey(code) - 32
  {}

  /** Shift, the A key, and shift released on a new keyboard: a capital A is accepted. */
  lemma CapitalA(buffer: seq<Byte>)
    requires |buffer| == C_BUFSIZE
    ensures ValidTable(SCAN_CODE)
    ensures Run(SCAN_CODE, Initial(false, false, buffer), [Key(0x2a), Key(0x1e), Key(0xaa)]).accepted == [65]
  {
    LetterKeys(0x1e);
    var s := Initial(false, false, buffer);
    var a := Step(SCAN_CODE, s, Key(0x2a));
    var b := Step(SCAN_CODE, a, Key(0x1e));
    var c := Step(SCAN_CODE, b, Key(0xaa));
    assert SCAN_CODE[1][0x1e] == 65;
    assert [Key(0x2a), Key(0x1e), Key(0xaa)][1..] == [Key(0x1e), Key(0xaa)];
    assert [Key(0x1e), Key(0xaa)][1..] == [Key(0xaa)] && [Key(0xaa)][1..] == [];
    assert Run(SCAN_CODE, c, []) == c && Run(SCAN_CODE, b, [Key(0xaa)]) == c;
  }
}
