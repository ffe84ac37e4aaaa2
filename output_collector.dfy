/**
 * Model of StdOutputCollectingProcessListener: a process listener that copies
 * the text of each output event into an Appendable sink, stops copying once
 * more than 16384 characters were accepted, and ignores blank chunks.
 *
 * The sink is foreign code; it is modelled as the ghost sequence of chunks it
 * received. An IOException from `append` is the parameter `appendFails`: the
 * chunk is counted but does not reach the sink.
 */
module OutputCollector {

  /** The character count after which further chunks are dropped. */
  const Limit: nat := 16384

  /** IntelliJ's `StringUtil.isEmptyOrSpaces`: empty, or only characters at or below U+0020 */
  predicate IsEmptyOrSpaces(text: string) {
    forall i :: 0 <= i < |text| ==> text[i] <= ' '
  }

  /** Whether a chunk arriving when `storedLength` characters were accepted is accepted. */
  predicate Accepts(storedLength: int, text: string) {
    storedLength <= Limit && !IsEmptyOrSpaces(text)
  }

  /**
   * A chunk is accepted exactly when at most 16384 characters were accepted
   * before it and it holds a character above U+0020; the empty chunk never is.
   */
  lemma AcceptsMeans(storedLength: int, text: string)
    ensures Accepts(storedLength, text) <==>
      storedLength <= Limit && exists i :: 0 <= i < |text| && text[i] > ' '
    ensures !Accepts(storedLength, "")
  {
  }

  /** Total number of characters in a sequence of chunks. */
  function TotalLength(chunks: seq<string>): nat {
    if chunks == [] then 0 else |chunks[0]| + TotalLength(chunks[1..])
  }

  lemma {:induction false} TotalLengthAppend(chunks: seq<string>, text: string)
    ensures TotalLength(chunks + [text]) == TotalLength(chunks) + |text|
  {
    if chunks != [] {
      assert (chunks + [text])[1..] == chunks[1..] + [text];
      TotalLengthAppend(chunks[1..], text);
    }
  }

  /** The chunks of `chunks` whose flag in `delivered` is set, in order. */
  function Delivered(chunks: seq<string>, delivered: seq<bool>): (r: seq<string>)
    requires |chunks| == |delivered|
    ensures |r| <= |chunks|
    ensures forall c :: c in r ==> c in chunks
  {
    if chunks == [] then []
    else Delivered(chunks[..|chunks| - 1], delivered[..|delivered| - 1])
         + (if delivered[|delivered| - 1] then [chunks[|chunks| - 1]] else [])
  }

  /** When no append failed, the sink holds every accepted chunk, in order and unmodified. */
  lemma {:induction false} DeliveredAll(chunks: seq<string>, delivered: seq<bool>)
    requires |chunks| == |delivered|
    requires forall i :: 0 <= i < |delivered| ==> delivered[i]
    ensures Delivered(chunks, delivered) == chunks
  {
    if chunks != [] {
      DeliveredAll(chunks[..|chunks| - 1], delivered[..|delivered| - 1]);
    }
  }

  /** The sink never receives more characters than the listener counted. */
  lemma {:induction false} DeliveredLength(chunks: seq<string>, delivered: seq<bool>)
    requires |chunks| == |delivered|
    ensures TotalLength(Delivered(chunks, delivered)) <= TotalLength(chunks)
  {
    if chunks != [] {
      var n := |chunks| - 1;
      DeliveredLength(chunks[..n], delivered[..n]);
      assert chunks == chunks[..n] + [chunks[n]];
      TotalLengthAppend(chunks[..n], chunks[n]);
      var prefix := Delivered(chunks[..n], delivered[..n]);
      assert Delivered(chunks, delivered) == prefix + (if delivered[n] then [chunks[n]] else []);
      if delivered[n] {
        TotalLengthAppend(prefix, chunks[n]);
      } else {
        assert prefix + [] == prefix;
      }
    }
  }

  /**
   * The listener's state after a whole run of events, computed from the event
   * texts alone: the accepted chunks, in arrival order.
   */
  function AcceptedOf(events: seq<string>): seq<string>
  {
    if events == [] then []
    else
      var before := AcceptedOf(events[..|events| - 1]);
      var text := events[|events| - 1];
      if Accepts(TotalLength(before), text) then before + [text] else before
  }

  /** One more event extends the run's accepted chunks by that event's text exactly when it is accepted. */
  lemma AcceptedOfSnoc(events: seq<string>, text: string)
    ensures AcceptedOf(events + [text]) ==
      if Accepts(TotalLength(AcceptedOf(events)), text) then AcceptedOf(events) + [text] else AcceptedOf(events)
  {
    assert (events + [text])[..|events|] == events;
  }

  /**
   * Every chunk accepted in a run is non-blank, and the count stays within the
   * limit plus the length of the last accepted chunk.
   */
  lemma {:induction false} AcceptedOfBound(events: seq<string>)
    ensures var acc := AcceptedOf(events);
      && (forall i :: 0 <= i < |acc| ==> !IsEmptyOrSpaces(acc[i]))
      && (acc == [] || TotalLength(acc) <= Limit + |acc[|acc| - 1]|)
  {
    if events != [] {
      var before := AcceptedOf(events[..|events| - 1]);
      AcceptedOfBound(events[..|events| - 1]);
      var text := events[|events| - 1];
      if Accepts(TotalLength(before), text) {
        TotalLengthAppend(before, text);
      }
    }
  }

  /** A run accepts at most one chunk per event, and every accepted chunk is the text of some event. */
  lemma {:induction false} AcceptedOfFromEvents(events: seq<string>)
    ensures |AcceptedOf(events)| <= |events|
    ensures forall c :: c in AcceptedOf(events) ==> c in events
  {
    if events != [] {
      var n := |events| - 1;
      AcceptedOfFromEvents(events[..n]);
      assert forall c :: c in events[..n] ==> c in events;
    }
  }

  class StdOutputCollectingProcessListener {
    /** Characters accepted so far (`myStoredLength`). */
    var storedLength: int
    /** The text of every event received, in order. */
    ghost var events: seq<string>
    /** Every accepted chunk, in arrival order. */
    ghost var accepted: seq<string>
    /** Per accepted chunk: whether the sink's `append` succeeded. */
    ghost var delivered: seq<bool>
    /** What the sink received (`myOutput`). */
    ghost var output: seq<string>

    ghost predicate Valid()
      reads this
    {
      && accepted == AcceptedOf(events)
      && storedLength == TotalLength(accepted)
      && |delivered| == |accepted|
      && output == Delivered(accepted, delivered)
      && (forall i :: 0 <= i < |accepted| ==> !IsEmptyOrSpaces(accepted[i]))
      && (accepted == [] || storedLength <= Limit + |accepted[|accepted| - 1]|)
    }

    constructor ()
      ensures Valid()
      ensures storedLength == 0 && events == [] && accepted == [] && output == []
    {
      storedLength := 0;
      events := [];
      accepted := [];
      delivered := [];
      output := [];
    }

    /** `onTextAvailable`: one output event carrying `text`. */
    method OnTextAvailable(text: string, appendFails: bool)
      requires Valid()
      modifies this
      ensures Valid() && events == old(events) + [text]
      ensures !Accepts(old(storedLength), text) ==>
        storedLength == old(storedLength) && accepted == old(accepted) && output == old(output)
      ensures Accepts(old(storedLength), text) ==>
        && storedLength == old(storedLength) + |text|
        && accepted == old(accepted) + [text]
        && output == old(output) + (if appendFails then [] else [text])
    {
      AcceptedOfSnoc(events, text);
      events := events + [text];
      if storedLength > Limit {
        return;
      }
      if IsEmptyOrSpaces(text) {
        return;
      }
      TotalLengthAppend(accepted, text);
      storedLength := storedLength + |text|;
      accepted := accepted + [text];
      delivered := delivered + [!appendFails];
      assert accepted[..|accepted| - 1] == old(accepted);
      assert delivered[..|delivered| - 1] == old(delivered);
      if !appendFails {
        output := output + [text];
      }
    }
  }
}
