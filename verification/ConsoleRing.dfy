/**
 The keyboard ring of a screen (src/kernel/c_io.c:518-678): the interrupt handler puts characters in,
 c_getchar takes them out, and the handler may run between any two steps of the reader.
 */
module ConsoleRing {
  import opened Common

  const C_BUFSIZE: nat := 200

  /** The character a key gives with and without shift: two rows of 128. */
  type Table = seq<seq<Byte>>

  predicate ValidTable(t: Table) {
    |t| == 2 && |t[0]| == |t[1]| == 128
  }

  // ---------- the ring ----------

  /** The keyboard's state, and the ring with its two positions. */
  datatype Keyboard = Keyboard(shift: bool, ctrl: bool, buffer: seq<Byte>, nextChar: nat, nextSpace: nat)

  predicate Valid(k: Keyboard) {
    |k.buffer| == C_BUFSIZE && k.nextChar < C_BUFSIZE && k.nextSpace < C_BUFSIZE
  }

  function Increment(p: nat): nat {
    if p + 1 >= C_BUFSIZE then 0 else p + 1
  }

  /** The number of characters waiting, as c_input_queue computes it. */
  function InputQueue(k: Keyboard): (n: int) {
    var n := k.nextSpace - k.nextChar;
    if n < 0 then n + C_BUFSIZE else n
  }

  /** The characters from position `p` up to position `q`. */
  function Between(buffer: seq<Byte>, p: nat, q: nat): (s: seq<Byte>)
    requires |buffer| == C_BUFSIZE && p < C_BUFSIZE && q < C_BUFSIZE
  {
    if p <= q then buffer[p..q] else buffer[p..] + buffer[..q]
  }

  /** The characters waiting, oldest first. */
  function Pending(k: Keyboard): (s: seq<Byte>)
    requires Valid(k)
  {
    Between(k.buffer, k.nextChar, k.nextSpace)
  }

  lemma PendingLength(k: Keyboard)
    requires Valid(k)
    ensures |Pending(k)| == InputQueue(k) < C_BUFSIZE
    ensures Pending(k) == [] <==> k.nextChar == k.nextSpace
    ensures |Pending(k)| == C_BUFSIZE - 1 <==> Increment(k.nextSpace) == k.nextChar
    ensures Pending(k) != [] ==> Pending(k)[0] == k.buffer[k.nextChar]
  {}

  /** Storing behind the last character and moving on appends it. */
  function Put(k: Keyboard, c: Byte): Keyboard
    requires Valid(k)
  {
    k.(buffer := k.buffer[k.nextSpace := c], nextSpace := Increment(k.nextSpace))
  }

  lemma PutAppends(k: Keyboard, c: Byte)
    requires Valid(k) && Increment(k.nextSpace) != k.nextChar
    ensures Valid(Put(k, c)) && Pending(Put(k, c)) == Pending(k) + [c]
  {}

  /** Moving on past the first character removes it. */
  function Take(k: Keyboard): Keyboard {
    k.(nextChar := Increment(k.nextChar))
  }

  lemma TakeRemoves(k: Keyboard)
    requires Valid(k) && Pending(k) != []
    ensures Valid(Take(k)) && Pending(Take(k)) == Pending(k)[1..]
  {}

  // ---------- scan codes ----------

  function Masked(c: Byte, ctrl: bool): Byte {
    if ctrl then c % 32 else c
  }

  /**
   The character a scan code produces, if it is the press of an ordinary key. An undefined key has 255 in the
   table, which as an int never equals the char constant it is compared with, so it counts as defined.
   */
  function Produced(t: Table, k: Keyboard, code: Byte): (c: int)
    requires ValidTable(t)
    ensures -1 <= c < 256
  {
    if code in {0x2a, 0x36, 0xaa, 0xb6, 0x1d, 0x9d} || code >= 0x80 then -1
    else
      var c := t[if k.shift then 1 else 0][code];
      if c != -1 then Masked(c, k.ctrl) else -1
  }

  /** What a scan code does to the modifiers. */
  function Modified(k: Keyboard, code: Byte): Keyboard {
    if code == 0x2a || code == 0x36 then k.(shift := true)
    else if code == 0xaa || code == 0xb6 then k.(shift := false)
    else if code == 0x1d then k.(ctrl := true)
    else if code == 0x9d then k.(ctrl := false)
    else k
  }

  /** The interrupt handler: a character is stored only if there is room. */
  function Scan(t: Table, k: Keyboard, code: Byte): Keyboard
    requires ValidTable(t) && Valid(k)
  {
    var c := Produced(t, k, code);
    if c == -1 then Modified(k, code)
    else if Increment(k.nextSpace) != k.nextChar then Put(k, c)
    else k
  }

  lemma ScanPending(t: Table, k: Keyboard, code: Byte)
    requires ValidTable(t) && Valid(k)
    ensures Valid(Scan(t, k, code))
    ensures var was, c := Pending(k), if code < 0x80 then t[if k.shift then 1 else 0][code] else 0;
            Pending(Scan(t, k, code)) == if code < 0x80 && code !in {0x2a, 0x36, 0x1d} && |was| < 199
                                         then was + [if k.ctrl then c % 32 else c] else was
  {
    PendingLength(k);
    if Produced(t, k, code) != -1 && Increment(k.nextSpace) != k.nextChar {
      PutAppends(k, Produced(t, k, code));
    }
  }

  // ---------- one reader and the handler, interleaved ----------

  /** Where c_getchar is: testing for a character, fetching it, or moving the pointer past it. */
  datatype Reader = Testing | Fetching | Moving(c: Byte)

  /** With what has been accepted from the keys and returned by c_getchar so far. */
  datatype State = State(k: Keyboard, reader: Reader, accepted: seq<Byte>, returned: seq<Byte>)

  datatype Event = Key(code: Byte) | Read

  /** One run of the handler, or one step of the reader. */
  function Step(t: Table, s: State, e: Event): (r: State)
    requires ValidTable(t) && Valid(s.k)
    ensures Valid(r.k)
  {
    match e
    case Key(code) =>
      var c := Produced(t, s.k, code);
      var s' := s.(k := Scan(t, s.k, code));
      if c != -1 && Increment(s.k.nextSpace) != s.k.nextChar then s'.(accepted := s.accepted + [c]) else s'
    case Read =>
      match s.reader
      case Testing => if s.k.nextChar == s.k.nextSpace then s else s.(reader := Fetching)
      case Fetching => s.(reader := Moving(s.k.buffer[s.k.nextChar]))
      case Moving(c) => s.(k := Take(s.k), reader := Testing, returned := s.returned + [c])
  }

  /** What has been accepted is what has been returned, in order, and then what is waiting. */
  ghost predicate Inv(s: State) {
    && Valid(s.k)
    && s.accepted == s.returned + Pending(s.k)
    && (!s.reader.Testing? ==> Pending(s.k) != [])
    && (s.reader.Moving? ==> Pending(s.k)[0] == s.reader.c)
  }

  lemma StepKeepsInv(t: Table, s: State, e: Event)
    requires ValidTable(t) && Inv(s)
    ensures Inv(Step(t, s, e))
  {
    PendingLength(s.k);
    match e
    case Key(code) =>
      var c := Produced(t, s.k, code);
      if c != -1 && Increment(s.k.nextSpace) != s.k.nextChar {
        PutAppends(s.k, c);
        assert s.accepted + [c] == s.returned + (Pending(s.k) + [c]);
      }
    case Read =>
      if s.reader.Moving? {
        TakeRemoves(s.k);
        assert s.returned + Pending(s.k) == (s.returned + [s.reader.c]) + Pending(s.k)[1..];
      }
  }

  function Run(t: Table, s: State, events: seq<Event>): (r: State)
    requires ValidTable(t) && Valid(s.k)
    ensures Valid(r.k)
    decreases |events|
  {
    if events == [] then s else Run(t, Step(t, s, events[0]), events[1..])
  }

  lemma {:induction false} RunKeepsInv(t: Table, s: State, events: seq<Event>)
    requires ValidTable(t) && Inv(s)
    ensures Inv(Run(t, s, events))
    decreases |events|
  {
    if events != [] {
      StepKeepsInv(t, s, events[0]);
      RunKeepsInv(t, Step(t, s, events[0]), events[1..]);
    }
  }

  function Initial(shift: bool, ctrl: bool, buffer: seq<Byte>): (s: State)
    requires |buffer| == C_BUFSIZE
    ensures Inv(s) && Pending(s.k) == []
  {
    State(Keyboard(shift, ctrl, buffer, 0, 0), Testing, [], [])
  }

  /**
   Whatever the interleaving, c_getchar returns the accepted characters in order, without loss or repetition,
   and c_input_queue tells how many are still to come, never more than 199.
   */
  lemma NothingLost(t: Table, shift: bool, ctrl: bool, buffer: seq<Byte>, events: seq<Event>)
    requires ValidTable(t) && |buffer| == C_BUFSIZE
    ensures var s := Run(t, Initial(shift, ctrl, buffer), events);
            && s.returned <= s.accepted
            && s.accepted[|s.returned|..] == Pending(s.k)
            && |s.accepted| - |s.returned| == InputQueue(s.k) < C_BUFSIZE
  {
    RunKeepsInv(t, Initial(shift, ctrl, buffer), events);
    PendingLength(Run(t, Initial(shift, ctrl, buffer), events).k);
  }

  /** A character is refused exactly when 199 are waiting. */
  lemma RefusedWhenFull(t: Table, s: State, code: Byte)
    requires ValidTable(t) && Inv(s) && Produced(t, s.k, code) != -1
    ensures var s' := Step(t, s, Key(code));
            && (s'.accepted == s.accepted <==> |Pending(s.k)| == C_BUFSIZE - 1)
            && (s'.accepted == s.accepted <==> s' == s)
            && (s' != s ==> s'.accepted == s.accepted + [Produced(t, s.k, code)])
  {
    PendingLength(s.k);
    var s' := Step(t, s, Key(code));
    assert |s'.accepted| == |s.accepted| || |s'.accepted| == |s.accepted| + 1;
  }

  /** A reader that has work to do and is not disturbed returns the oldest character in three steps. */
  lemma UndisturbedRead(t: Table, s: State)
    requires ValidTable(t) && Inv(s) && s.reader.Testing? && Pending(s.k) != []
    ensures var s' := Step(t, Step(t, Step(t, s, Read), Read), Read);
            && s'.returned == s.returned + [Pending(s.k)[0]] && s'.reader.Testing? && Pending(s'.k) == Pending(s.k)[1..]
  {
    PendingLength(s.k);
    TakeRemoves(s.k);
  }

  /** A key without a character is stored all the same, as 255 or, with control, as 31. */
  lemma UndefinedKeyStored(t: Table, s: State, code: Byte)
    requires ValidTable(t) && Inv(s) && code < 0x80 && code !in {0x2a, 0x36, 0x1d}
    requires t[if s.k.shift then 1 else 0][code] == 255
    ensures var s' := Step(t, s, Key(code));
            |Pending(s.k)| < C_BUFSIZE - 1 <==> s'.accepted == s.accepted + [if s.k.ctrl then 31 else 255]
  {
    PendingLength(s.k);
    RefusedWhenFull(t, s, code);
    assert |s.accepted + [if s.k.ctrl then 31 else 255]| == |s.accepted| + 1;
  }

  // ---------- in place ----------

  /** The ring of one screen and the state of the keyboard. */
  class InputBuffer {
    var shift: bool
    var ctrl: bool
    const buffer: array<Byte>
    var nextChar: nat
    var nextSpace: nat

    ghost function Value(): Keyboard
      reads this, buffer
    {
      Keyboard(shift, ctrl, buffer[..], nextChar, nextSpace)
    }

    /** Handles a scan code read from the keyboard's port. */
    method InputScanCode(t: Table, code: Byte)
      requires ValidTable(t) && Valid(Value())
      modifies this, buffer
      ensures Value() == Scan(t, old(Value()), code)
      ensures shift == (code == 0x2a || code == 0x36 || (old(shift) && code != 0xaa && code != 0xb6))
      ensures ctrl == (code == 0x1d || (old(ctrl) && code != 0x9d))
      ensures Valid(Value())
      ensures var was, c := Pending(old(Value())), if code < 0x80 then t[if old(shift) then 1 else 0][code] else 0;
              Pending(Value()) == if code < 0x80 && code !in {0x2a, 0x36, 0x1d} && |was| < 199
                                  then was + [if old(ctrl) then c % 32 else c] else was
    {
      ScanPending(t, Value(), code);
      if code == 0x2a || code == 0x36 {
        shift := true;
      } else if code == 0xaa || code == 0xb6 {
        shift := false;
      } else if code == 0x1d {
        ctrl := true;
      } else if code == 0x9d {
        ctrl := false;
      } else if code < 0x80 {
        var c := t[if shift then 1 else 0][code];
        if c != -1 {
          var next := Increment(nextSpace);
          if next != nextChar {
            buffer[nextSpace] := Masked(c, ctrl);
            nextSpace := next;
          }
        }
      }
    }

    /** The part of c_getchar after its waiting loop. */
    method GetChar() returns (c: Byte)
      requires Valid(Value()) && Pending(Value()) != []
      modifies `nextChar
      ensures c == Pending(old(Value()))[0] && Value() == Take(old(Value()))
      ensures Valid(Value()) && Pending(Value()) == Pending(old(Value()))[1..]
    {
      PendingLength(Value());
      TakeRemoves(Value());
      c := buffer[nextChar];
      nextChar := Increment(nextChar);
    }

    method InputQueue() returns (n: int)
      requires Valid(Value())
      ensures n == |Pending(Value())|
    {
      PendingLength(Value());
      n := nextSpace - nextChar;
      if n < 0 {
        n := n + C_BUFSIZE;
      }
    }
  }
}
