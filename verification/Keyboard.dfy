/**
 The keyboard ring: the interrupt handler fills it, and `getch` empties it. The handler may run between
 any two statements of `getch`, so these are separate methods here.
 */
module Keyboards {
  const SIZE: nat := 4096

  /** Where the reader is in `getch`: outside, past an unsuccessful test, asleep, or past the read of the
      slot. `missed` tells whether a character was taken between the test and the wait. */
  datatype Reader = Out | Empty(missed: bool) | Asleep(missed: bool) | Took(ch: char)

  /** The unread characters: from `b` up to `e`, around the ring. */
  ghost function Span(ring: seq<char>, b: nat, e: nat): seq<char>
    requires |ring| == SIZE && b < SIZE && e < SIZE
  {
    if b <= e then ring[b..e] else ring[b..] + ring[..e]
  }

  /** Slot `i` is unread. */
  predicate Unread(b: nat, e: nat, i: nat) {
    if b <= e then b <= i < e else b <= i || i < e
  }

  lemma SpanPushed(ring: seq<char>, b: nat, e: nat, ch: char)
    requires |ring| == SIZE && b < SIZE && e < SIZE && (e + 1) % SIZE != b
    ensures Span(ring[e := ch], b, (e + 1) % SIZE) == Span(ring, b, e) + [ch]
  {
  }

  lemma SpanPopped(ring: seq<char>, b: nat, e: nat)
    requires |ring| == SIZE && b < SIZE && e < SIZE && b != e
    ensures Span(ring, b, e) == [ring[b]] + Span(ring, (b + 1) % SIZE, e)
  {
    hide Span;
    if b + 1 == SIZE {
      SpanTurned(ring, b, e);
    } else {
      SpanNext(ring, b, e);
    }
  }

  lemma SpanTurned(ring: seq<char>, b: nat, e: nat)
    requires |ring| == SIZE && b + 1 == SIZE && e < b
    ensures Span(ring, b, e) == [ring[b]] + Span(ring, 0, e)
  {
  }

  lemma SpanNext(ring: seq<char>, b: nat, e: nat)
    requires |ring| == SIZE && b + 1 < SIZE && e < SIZE && b != e
    ensures Span(ring, b, e) == [ring[b]] + Span(ring, b + 1, e)
  {
  }

  /** The ring is full with one slot to spare, and empty when the indices meet. */
  lemma SpanLength(ring: seq<char>, b: nat, e: nat)
    requires |ring| == SIZE && b < SIZE && e < SIZE
    ensures |Span(ring, b, e)| < SIZE - 1 <==> (e + 1) % SIZE != b
    ensures Span(ring, b, e) == [] <==> b == e
  {
  }

  lemma Shifted(a: seq<char>, d: seq<char>, c: char, r: seq<char>)
    requires a == d + ([c] + r)
    ensures a == (d + [c]) + r
  {
  }

  class Keyboard {
    var buffer: array<char>
    var begin: nat
    var end: nat
    var reader: Reader
    /** All characters that the handler took in, and all that `getch` returned. */
    ghost var accepted: seq<char>
    ghost var delivered: seq<char>

    ghost predicate Valid()
      reads this, buffer
    {
      && buffer.Length == SIZE && begin < SIZE && end < SIZE
      && accepted == delivered + Span(buffer[..], begin, end)
      && (reader.Took? ==> begin != end && reader.ch == buffer[begin])
      && (reader.Empty? || reader.Asleep? ==> (Span(buffer[..], begin, end) != [] <==> reader.missed))
    }

    constructor ()
      ensures Valid() && fresh(buffer) && accepted == [] && delivered == [] && begin == end && reader.Out?
    {
      buffer := new char[SIZE](_ => '\0');
      begin, end, reader := 0, 0, Out;
      accepted, delivered := [], [];
    }

    /** The ring part of `read_scancode`; `ch` is what the scan code stands for, or '\0'. */
    method ReadScancode(ch: char) returns (taken: bool)
      requires Valid()
      modifies this`end, this`reader, this`accepted, buffer
      ensures Valid()
      ensures taken <==> ch != '\0' && |Span(old(buffer[..]), begin, old(end))| < SIZE - 1
      ensures accepted == old(accepted) + if taken then [ch] else []
      ensures forall i :: 0 <= i < SIZE && Unread(begin, old(end), i) ==> buffer[i] == old(buffer[i])
      ensures reader == match old(reader)
        case Asleep(_) => if taken then Out else old(reader)
        case Empty(missed) => Empty(missed || taken)
        case _ => old(reader)
    {
      hide Span;
      taken := false;
      SpanLength(buffer[..], begin, end);
      if (end + 1) % SIZE == begin {
        return;
      }
      if ch != '\0' {
        SpanPushed(buffer[..], begin, end, ch);
        buffer[end] := ch;
        assert buffer[..] == old(buffer[..])[end := ch];
        end := (end + 1) % SIZE;
        accepted := accepted + [ch];
        assert accepted == delivered + (Span(old(buffer[..]), begin, old(end)) + [ch]);
        if reader.Asleep? {
          reader := Out;
        } else if reader.Empty? {
          reader := Empty(true);
        }
        taken := true;
      }
    }

    /** `getch`: the test of the ring. */
    method Test() returns (ready: bool)
      requires Valid() && reader.Out?
      modifies this`reader
      ensures Valid() && (ready <==> Span(buffer[..], begin, end) != []) && reader == if ready then Out else Empty(false)
    {
      hide Span;
      SpanLength(buffer[..], begin, end);
      ready := begin != end;
      reader := if ready then Out else Empty(false);
    }

    /** `getch`: the wait, after an unsuccessful test. The reader sleeps beside unread characters if and
        only if one was taken since the test. */
    method Wait()
      requires Valid() && reader.Empty?
      modifies this`reader
      ensures Valid() && reader == Asleep(old(reader).missed)
      ensures Span(buffer[..], begin, end) != [] <==> old(reader).missed
    {
      hide Span;
      reader := Asleep(reader.missed);
    }

    /** `getch`: the read of the slot, after a successful test. */
    method Take()
      requires Valid() && reader.Out? && begin != end
      modifies this`reader
      ensures Valid() && reader == Took(Span(buffer[..], begin, end)[0])
    {
      SpanPopped(buffer[..], begin, end);
      reader := Took(buffer[begin]);
    }

    /** `getch`: the advance, and the return of the character read before. */
    method Advance() returns (ch: char)
      requires Valid() && reader.Took?
      modifies this`begin, this`reader, this`delivered
      ensures Valid() && reader.Out? && delivered == old(delivered) + [ch]
    {
      hide Span;
      SpanPopped(buffer[..], begin, end);
      Shifted(accepted, delivered, reader.ch, Span(buffer[..], (begin + 1) % SIZE, end));
      ch := reader.ch;
      begin := (begin + 1) % SIZE;
      reader := Out;
      delivered := delivered + [ch];
    }
  }

  /** A key between the test and the wait wakes nobody: the reader sleeps although a character is there. */
  method MissedWakeup() returns (k: Keyboard)
    ensures fresh(k) && k.Valid() && k.reader == Asleep(true) && Span(k.buffer[..], k.begin, k.end) == ['a']
  {
    hide Span;
    k := new Keyboard();
    SpanLength(k.buffer[..], k.begin, k.end);
    var ready := k.Test();
    var taken := k.ReadScancode('a');
    k.Wait();
    ghost var unread := Span(k.buffer[..], k.begin, k.end);
    assert [] + unread == unread;
  }
}
