/** The per-file worker `read_file`: scan the lines of one file for the search
    string and put at most one entry on the worker's queue. */
module Scanner {
  import opened Text

  /** One step of reading a text file line by line: a decoded line, or the
      I/O or decoding error that ended the reading, with its message. An error
      raised by `open` itself is a `ReadError` before any line. */
  datatype ReadEvent = Line(text: string) | ReadError(msg: string)

  /** The queue entry for a file that could not be opened or decoded. */
  function ErrorEntry(path: string, msg: string): (e: string)
    ensures Contains(e, "Error")
    ensures |e| > |path|
  {
    var e := "Error: " + path + " - " + msg;
    assert e[..5] == "Error";
    e
  }

  /** The message can be recovered from its error entry. */
  lemma ErrorEntryInjective(path: string, m1: string, m2: string)
    requires ErrorEntry(path, m1) == ErrorEntry(path, m2)
    ensures m1 == m2
  {
    var n := |"Error: " + path + " - "|;
    assert m1 == ErrorEntry(path, m1)[n..];
    assert m2 == ErrorEntry(path, m2)[n..];
  }

  /** The events at which the scan stops: a matching line or an error. */
  predicate Stops(e: ReadEvent, search: string)
  {
    e.ReadError? || Contains(e.text, search)
  }

  /** What the worker puts on its queue, read off the events one at a time. */
  function Scan(path: string, search: string, events: seq<ReadEvent>): seq<string>
    decreases |events|
  {
    if events == [] then []
    else
      match events[0]
      case ReadError(msg) => [ErrorEntry(path, msg)]
      case Line(text) =>
        if Contains(text, search) then [path] else Scan(path, search, events[1..])
  }

  /** The index of the first event at which the scan stops, or the number of
      events when there is none. */
  function StopIndex(search: string, events: seq<ReadEvent>): (k: nat)
    ensures k <= |events|
    ensures forall j :: 0 <= j < k ==> !Stops(events[j], search)
    ensures k < |events| ==> Stops(events[k], search)
    decreases |events|
  {
    if events == [] || Stops(events[0], search) then 0
    else 1 + StopIndex(search, events[1..])
  }

  /** The first stopping event alone decides what is put on the queue. */
  lemma {:induction false} ScanByStopIndex(path: string, search: string, events: seq<ReadEvent>)
    ensures var k := StopIndex(search, events);
            Scan(path, search, events) ==
              if k == |events| then []
              else if events[k].ReadError? then [ErrorEntry(path, events[k].msg)]
              else [path]
    decreases |events|
  {
    if events != [] && !Stops(events[0], search) {
      ScanByStopIndex(path, search, events[1..]);
    }
  }

  /** At most one entry is put on the queue, and it is either the path or the
      error entry of the first error: never both. */
  lemma {:induction false} ScanAtMostOne(path: string, search: string, events: seq<ReadEvent>)
    ensures |Scan(path, search, events)| <= 1
    ensures Scan(path, search, events) == [] ||
            Scan(path, search, events) == [path] ||
            exists m :: Scan(path, search, events) == [ErrorEntry(path, m)]
  {
    ScanByStopIndex(path, search, events);
  }

  /** The path is put on the queue exactly when some line contains the search
      string and every event before it is a line (so no error came first). */
  lemma {:induction false} ScanFoundIff(path: string, search: string, events: seq<ReadEvent>)
    ensures Scan(path, search, events) == [path] <==>
            exists k :: 0 <= k < |events| && events[k].Line? && Contains(events[k].text, search) &&
                        forall j :: 0 <= j < k ==> events[j].Line?
  {
    ScanByStopIndex(path, search, events);
    var s := StopIndex(search, events);
    if s < |events| && events[s].Line? {
      assert forall j :: 0 <= j < s ==> events[j].Line?;
    }
    if k :| 0 <= k < |events| && events[k].Line? && Contains(events[k].text, search) &&
            forall j :: 0 <= j < k ==> events[j].Line? {
      assert s <= k;
      assert events[s].Line?;
    }
  }

  /** The error entry with message `m` is put on the queue exactly when the
      first event that is not a non-matching line is the error `m`. */
  lemma ScanErrorIff(path: string, search: string, events: seq<ReadEvent>, m: string)
    ensures Scan(path, search, events) == [ErrorEntry(path, m)] <==>
            exists k :: 0 <= k < |events| && events[k] == ReadError(m) &&
                        forall j :: 0 <= j < k ==> events[j].Line? && !Contains(events[j].text, search)
  {
    ScanByStopIndex(path, search, events);
    var s := StopIndex(search, events);
    if Scan(path, search, events) == [ErrorEntry(path, m)] {
      assert s < |events| && events[s].ReadError?;
      ErrorEntryInjective(path, m, events[s].msg);
      assert forall j :: 0 <= j < s ==> events[j].Line? && !Contains(events[j].text, search);
    }
    if k :| 0 <= k < |events| && events[k] == ReadError(m) &&
            forall j :: 0 <= j < k ==> events[j].Line? && !Contains(events[j].text, search) {
      assert s == k;
    }
  }

  /** Nothing is put on the queue exactly when every event is a line and none
      contains the search string. */
  lemma {:induction false} ScanSilentIff(path: string, search: string, events: seq<ReadEvent>)
    ensures Scan(path, search, events) == [] <==>
            forall k :: 0 <= k < |events| ==> events[k].Line? && !Contains(events[k].text, search)
  {
    ScanByStopIndex(path, search, events);
  }

  /** Early exit: the events after the first stopping one are never looked at. */
  lemma {:induction false} ScanIgnoresRest(path: string, search: string, events: seq<ReadEvent>, rest: seq<ReadEvent>)
    requires StopIndex(search, events) < |events|
    ensures Scan(path, search, events + rest) == Scan(path, search, events)
    decreases |events|
  {
    assert (events + rest)[0] == events[0];
    if !Stops(events[0], search) {
      assert (events + rest)[1..] == events[1..] + rest;
      ScanIgnoresRest(path, search, events[1..], rest);
    }
  }

  /** With an empty search string the first line of any readable file
      matches. */
  lemma EmptySearchMatchesFirstLine(path: string, events: seq<ReadEvent>)
    requires events != [] && events[0].Line?
    ensures Scan(path, "", events) == [path]
  {
    ContainsEmpty(events[0].text);
  }

  /** `read_file`: read events until a line contains `search` (put the path on
      the queue and stop) or an error occurs (put its error entry on the queue).
      `emitted` is the queue's contents afterwards, `read` the number of events
      consumed. */
  method ReadFile(path: string, search: string, events: seq<ReadEvent>)
    returns (emitted: seq<string>, read: nat)
    ensures read == if StopIndex(search, events) < |events| then StopIndex(search, events) + 1 else |events|
    ensures emitted == Scan(path, search, events)
    ensures emitted == Scan(path, search, events[..read])
    ensures |emitted| <= 1
  {
    emitted, read := [], 0;
    while read < |events|
      invariant read <= |events|
      invariant forall j :: 0 <= j < read ==> !Stops(events[j], search)
    {
      var e := events[read];
      read := read + 1;
      match e
      case ReadError(msg) =>
        emitted := [ErrorEntry(path, msg)];
        break;
      case Line(text) =>
        if Contains(text, search) {
          emitted := [path];
          break;
        }
    }
    ScanByStopIndex(path, search, events);
    assert events == events[..read] + events[read..];
    if StopIndex(search, events) < |events| {
      ScanByStopIndex(path, search, events[..read]);
      ScanIgnoresRest(path, search, events[..read], events[read..]);
    } else {
      assert events[..read] == events;
    }
  }
}
