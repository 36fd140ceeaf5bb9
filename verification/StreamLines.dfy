/** The line filter between the upstream body and the stream translators. */
module StreamLines {
  import opened Collections
  import opened Wrappers
  import opened Text

  const PREFIX := "data: "

  datatype Line = Skip | Stop | Data(payload: string)

  predicate EndMarker(data: string) {
    data == "end" || data == "[DONE]"
  }

  /** What one line of the body means. */
  function Classify(raw: string): Line {
    var line := TrimSpace(raw);
    if !(PREFIX <= line) then Skip
    else
      var data := TrimSpace(line[|PREFIX|..]);
      if EndMarker(data) then Stop
      else if data == "null" || data == "" then Skip
      else Data(data)
  }

  function Classified(lines: seq<string>): (marks: seq<Line>)
    ensures |marks| == |lines| && forall i :: 0 <= i < |lines| ==> marks[i] == Classify(lines[i])
  {
    if |lines| == 0 then [] else [Classify(lines[0])] + Classified(lines[1..])
  }

  /** The event a line carries, if it carries one that parses. */
  function Heard<E>(line: Line, parse: string -> Option<E>): (events: seq<E>)
    ensures |events| <= 1
  {
    if line.Data? && parse(line.payload).Some? then [parse(line.payload).value] else []
  }

  function EventsOf<E>(marks: seq<Line>, parse: string -> Option<E>): seq<E> {
    if |marks| == 0 || marks[0].Stop? then [] else Heard(marks[0], parse) + EventsOf(marks[1..], parse)
  }

  /** The events of a body: its payloads up to an end marker, those that do not parse left out. */
  function Events<E>(lines: seq<string>, parse: string -> Option<E>): seq<E> {
    EventsOf(Classified(lines), parse)
  }

  function Take<E>(items: seq<E>, n: nat): seq<E> {
    if n < |items| then items[..n] else items
  }

  /** The events a callback is handed: all up to the first, that one included, after which it asks for no more.
      `goOn` is its answer to the event it is handed as number so-and-so. */
  function Until<E>(events: seq<E>, goOn: (nat, E) -> bool, first: nat): seq<E>
    decreases |events|
  {
    if |events| == 0 then []
    else [events[0]] + if goOn(first, events[0]) then Until(events[1..], goOn, first + 1) else []
  }

  function MarksRead<E>(marks: seq<Line>, parse: string -> Option<E>, goOn: (nat, E) -> bool, first: nat): (n: nat)
    ensures n <= |marks|
    decreases |marks|
  {
    if |marks| == 0 then 0
    else if marks[0].Stop? then 1
    else
      var heard := Heard(marks[0], parse);
      1 + if |heard| == 0 then MarksRead(marks[1..], parse, goOn, first)
          else if goOn(first, heard[0]) then MarksRead(marks[1..], parse, goOn, first + 1)
          else 0
  }

  /** How many lines are read before an end marker or the callback stops the loop, that line included. */
  function LinesRead<E>(lines: seq<string>, parse: string -> Option<E>, goOn: (nat, E) -> bool): (n: nat)
    ensures n <= |lines|
  {
    MarksRead(Classified(lines), parse, goOn, 0)
  }

  /** What will have been handed over when the lines ahead have been read. */
  function Ahead<E>(handled: seq<E>, marks: seq<Line>, parse: string -> Option<E>, goOn: (nat, E) -> bool): seq<E> {
    handled + Until(EventsOf(marks, parse), goOn, |handled|)
  }

  lemma NothingAhead<E>(handled: seq<E>, marks: seq<Line>, parse: string -> Option<E>, goOn: (nat, E) -> bool)
    requires |marks| == 0 || marks[0].Stop?
    ensures Ahead(handled, marks, parse, goOn) == handled
    ensures MarksRead(marks, parse, goOn, |handled|) == if |marks| == 0 then 0 else 1
  {}

  lemma ReadsOn<E>(marks: seq<Line>, parse: string -> Option<E>, goOn: (nat, E) -> bool, first: nat)
    requires |marks| > 0
    ensures MarksRead(marks, parse, goOn, first) > 0
  {}

  lemma NothingInFront<E>(none: seq<E>, rest: seq<E>)
    requires |none| == 0
    ensures none + rest == rest
  {}

  /** A line that carries no event. */
  lemma SkipLine<E>(handled: seq<E>, marks: seq<Line>, i: nat, parse: string -> Option<E>, goOn: (nat, E) -> bool)
    requires i < |marks| && !marks[i].Stop? && |Heard(marks[i], parse)| == 0
    ensures Ahead(handled, marks[i..], parse, goOn) == Ahead(handled, marks[i + 1..], parse, goOn)
    ensures MarksRead(marks[i..], parse, goOn, |handled|) == 1 + MarksRead(marks[i + 1..], parse, goOn, |handled|)
  {
    assert marks[i..][0] == marks[i] && marks[i..][1..] == marks[i + 1..];
    NothingInFront(Heard(marks[i], parse), EventsOf(marks[i + 1..], parse));
  }

  /** A line that carries one. */
  lemma HearLine<E>(handled: seq<E>, marks: seq<Line>, i: nat, parse: string -> Option<E>, goOn: (nat, E) -> bool, e: E)
    requires i < |marks| && !marks[i].Stop? && Heard(marks[i], parse) == [e]
    ensures Ahead(handled, marks[i..], parse, goOn) ==
            if goOn(|handled|, e) then Ahead(handled + [e], marks[i + 1..], parse, goOn) else handled + [e]
    ensures MarksRead(marks[i..], parse, goOn, |handled|) ==
            if goOn(|handled|, e) then 1 + MarksRead(marks[i + 1..], parse, goOn, |handled| + 1) else 1
  {
    assert marks[i..][0] == marks[i] && marks[i..][1..] == marks[i + 1..];
    var rest := EventsOf(marks[i + 1..], parse);
    assert ([e] + rest)[1..] == rest;
    if goOn(|handled|, e) {
      Associative(handled, [e], Until(rest, goOn, |handled| + 1));
    }
  }

  /** The events from line `i` on. */
  lemma NextEvents<E>(marks: seq<Line>, i: nat, parse: string -> Option<E>)
    requires i <= |marks|
    ensures i == |marks| || marks[i].Stop? ==> |EventsOf(marks[i..], parse)| == 0
    ensures i < |marks| && !marks[i].Stop? ==>
              EventsOf(marks[i..], parse) == Heard(marks[i], parse) + EventsOf(marks[i + 1..], parse)
  {
    if i < |marks| {
      assert marks[i..][0] == marks[i] && marks[i..][1..] == marks[i + 1..];
    }
  }

  lemma {:induction false} ClassifiedPrefix(lines: seq<string>, n: nat)
    ensures Classified(Take(lines, n)) == Take(Classified(lines), n)
  {
    if n < |lines| && n > 0 {
      ClassifiedPrefix(lines[1..], n - 1);
      assert lines[..n][1..] == lines[1..][..n - 1];
    }
  }

  /** One line: `more` says whether to go on. */
  method ProcessLine<E>(raw: string, parse: string -> Option<E>, goOn: (nat, E) -> bool, handled: seq<E>,
                        ghost marks: seq<Line>, ghost live: seq<Line>, ghost i: nat)
    returns (handled': seq<E>, more: bool)
    requires i < |marks| && i < |live| && marks[i] == live[i] == Classify(raw)
    ensures more ==> Ahead(handled', live[i + 1..], parse, goOn) == Ahead(handled, live[i..], parse, goOn)
    ensures more ==> 1 + MarksRead(marks[i + 1..], parse, goOn, |handled'|) == MarksRead(marks[i..], parse, goOn, |handled|)
    ensures !more ==> handled' == Ahead(handled, live[i..], parse, goOn) && MarksRead(marks[i..], parse, goOn, |handled|) == 1
  {
    var line := Classify(raw);
    if line.Stop? {
      NothingAhead(handled, live[i..], parse, goOn);
      NothingAhead(handled, marks[i..], parse, goOn);
      return handled, false;
    }
    var heard := Heard(line, parse);
    if |heard| == 0 {
      SkipLine(handled, marks, i, parse, goOn);
      SkipLine(handled, live, i, parse, goOn);
      return handled, true;
    }
    HearLine(handled, marks, i, parse, goOn, heard[0]);
    HearLine(handled, live, i, parse, goOn, heard[0]);
    return handled + [heard[0]], goOn(|handled|, heard[0]);
  }

  /**
   Hands the events to a callback.  The request counts as cancelled once `cancelAt` lines were read,
   and the scanner meets a read error with its `errorAt`-th line: the events are those of the lines
   before the cancellation, up to where the callback stops, and the call fails if it is cancelled
   with a line left to look at, or if the error was met before it stopped.
   */
  method ProcessStream<E>(lines: seq<string>, parse: string -> Option<E>, goOn: (nat, E) -> bool, cancelAt: nat, errorAt: nat)
    returns (handled: seq<E>, failed: bool)
    ensures handled == Until(Events(Take(lines, cancelAt), parse), goOn, 0)
    ensures var read := LinesRead(lines, parse, goOn); failed <==> read > cancelAt || read >= errorAt
  {
    ClassifiedPrefix(lines, cancelAt);
    ghost var marks := Classified(lines);
    ghost var read := MarksRead(marks, parse, goOn, 0);
    handled := [];
    var i := 0;
    while i < |lines|
      invariant 0 <= i <= |Take(marks, cancelAt)|
      invariant Ahead(handled, Take(marks, cancelAt)[i..], parse, goOn) == Until(EventsOf(Take(marks, cancelAt), parse), goOn, 0)
      invariant read == i + MarksRead(marks[i..], parse, goOn, |handled|)
    {
      if i >= cancelAt {
        NothingAhead(handled, Take(marks, cancelAt)[i..], parse, goOn);
        ReadsOn(marks[i..], parse, goOn, |handled|);
        return handled, true;
      }
      var more;
      handled, more := ProcessLine(lines[i], parse, goOn, handled, marks, Take(marks, cancelAt), i);
      i := i + 1;
      if !more {
        break;
      }
    }
    failed := i >= errorAt;
  }

  // ----- framing -----

  lemma {:induction false} TrimLeftDrops(pre: string, s: string)
    requires AllSpace(pre)
    ensures TrimLeft(pre + s) == TrimLeft(s)
  {
    if pre == "" {
      assert pre + s == s;
    } else {
      assert (pre + s)[1..] == pre[1..] + s;
      TrimLeftDrops(pre[1..], s);
    }
  }

  lemma {:induction false} TrimRightDrops(s: string, post: string)
    requires AllSpace(post)
    ensures TrimRight(s + post) == TrimRight(s)
  {
    if post == "" {
      assert s + post == s;
    } else {
      assert (s + post)[..|s + post| - 1] == s + post[..|post| - 1];
      TrimRightDrops(s, post[..|post| - 1]);
    }
  }

  /** Trimming finds the text between two runs of white space. */
  lemma TrimSpaceBetween(pre: string, s: string, post: string)
    requires AllSpace(pre) && AllSpace(post) && Tight(s)
    ensures TrimSpace(pre + s + post) == s
  {
    assert pre + s + post == pre + (s + post);
    TrimLeftDrops(pre, s + post);
    if s == "" {
      assert s + post == post && post + "" == post;
      TrimLeftDrops(post, "");
    } else {
      assert TrimLeft(s + post) == s + post;
      TrimRightDrops(s, post);
    }
  }

  /** A framed line reads back as its payload, whatever white space surrounds it, exactly for payloads that are
      trimmed, not empty and not one of the reserved words. */
  lemma FramedLineReadsBack(pre: string, payload: string, post: string)
    requires AllSpace(pre) && AllSpace(post)
    ensures Classify(pre + PREFIX + payload + post) == Data(payload)
       <==> Tight(payload) && payload != "" && payload != "null" && !EndMarker(payload)
  {
    if Tight(payload) && payload != "" {
      var line := PREFIX + payload;
      assert Tight(line) by {
        assert line[0] == 'd' && line[|line| - 1] == payload[|payload| - 1];
      }
      assert pre + PREFIX + payload + post == pre + line + post;
      TrimSpaceBetween(pre, line, post);
      assert line[|PREFIX|..] == payload && "" + payload + "" == payload;
      TrimSpaceBetween("", payload, "");
    } else {
      var line := TrimSpace(pre + PREFIX + payload + post);
      if PREFIX <= line {
        var before, after := TrimSpaceSplits(line[|PREFIX|..]);
      }
    }
  }

  ghost predicate Sendable(payload: string) {
    Tight(payload) && payload != "" && payload != "null" && !EndMarker(payload)
  }

  lemma TrimmedPayload(payload: string)
    requires Sendable(payload)
    ensures TrimSpace(PREFIX + payload) == PREFIX + payload && TrimSpace(payload) == payload
  {
    var line := PREFIX + payload;
    assert Tight(line) by {
      assert line[0] == 'd' && line[|line| - 1] == payload[|payload| - 1];
    }
    assert "" + line + "" == line && "" + payload + "" == payload;
    TrimSpaceBetween("", line, "");
    TrimSpaceBetween("", payload, "");
  }

  /** A parser that takes every payload as it is. */
  function AsIs(payload: string): Option<string> {
    Some(payload)
  }

  function Framed(payloads: seq<string>): seq<string> {
    if |payloads| == 0 then [] else [PREFIX + payloads[0], ""] + Framed(payloads[1..])
  }

  lemma FramedMarks(payload: string, lines: seq<string>, tail: seq<string>)
    requires Sendable(payload) && lines == [PREFIX + payload, ""] + tail
    ensures Classified(lines) == [Data(payload), Skip] + Classified(tail)
  {
    assert "" + PREFIX + payload + "" == PREFIX + payload;
    FramedLineReadsBack("", payload, "");
    assert Classify("") == Skip;
    assert lines[1..][0] == "" && lines[1..][1..] == tail;
  }

  lemma EventAndBlank(payload: string, marks: seq<Line>)
    ensures EventsOf([Data(payload), Skip] + marks, AsIs) == [payload] + EventsOf(marks, AsIs)
  {
    var all := [Data(payload), Skip] + marks;
    assert all[1..] == [Skip] + marks && ([Skip] + marks)[1..] == marks;
    assert EventsOf([Skip] + marks, AsIs) == [] + EventsOf(marks, AsIs) == EventsOf(marks, AsIs);
  }

  lemma FramedEvent(payload: string, lines: seq<string>, tail: seq<string>)
    requires Sendable(payload) && lines == [PREFIX + payload, ""] + tail
    ensures Events(lines, AsIs) == [payload] + Events(tail, AsIs)
  {
    FramedMarks(payload, lines, tail);
    EventAndBlank(payload, Classified(tail));
  }

  lemma EndLineStops()
    ensures Classify("data: end") == Stop
  {
    assert "" + "data: end" + "" == "data: end" && "" + "end" + "" == "end";
    TrimSpaceBetween("", "data: end", "");
    TrimSpaceBetween("", "end", "");
    assert "data: end"[|PREFIX|..] == "end";
  }

  /** Framing payloads as events, blank line after each, and closing with an end marker loses and invents nothing;
      what follows the marker is never looked at. */
  lemma {:induction false} FramedStreamReadsBack(payloads: seq<string>, rest: seq<string>)
    requires forall i :: 0 <= i < |payloads| ==> Sendable(payloads[i])
    ensures Events(Framed(payloads) + ["data: end"] + rest, AsIs) == payloads
  {
    if |payloads| == 0 {
      EndLineStops();
      assert Framed(payloads) + ["data: end"] + rest == ["data: end"] + rest;
    } else {
      var tail := Framed(payloads[1..]) + ["data: end"] + rest;
      var lines := Framed(payloads) + ["data: end"] + rest;
      assert lines == [PREFIX + payloads[0], ""] + tail;
      FramedStreamReadsBack(payloads[1..], rest);
      FramedEvent(payloads[0], lines, tail);
      assert [payloads[0]] + payloads[1..] == payloads;
    }
  }

  // ----- what is read -----

  lemma BlankPayload(pre: string, post: string)
    requires AllSpace(pre) && AllSpace(post)
    ensures Classify(pre + PREFIX + post) == Skip
  {
    var tag := "data:";
    assert Tight(tag) && AllSpace([' '] + post);
    assert pre + PREFIX + post == pre + tag + ([' '] + post);
    TrimSpaceBetween(pre, tag, [' '] + post);
  }

  /** A line is an end marker, a payload or nothing, by what follows the prefix; white space around it does not count. */
  lemma FramedLineMeans(pre: string, payload: string, post: string)
    requires AllSpace(pre) && AllSpace(post) && Tight(payload)
    ensures Classify(pre + PREFIX + payload + post) ==
            if payload == "end" || payload == "[DONE]" then Stop
            else if payload == "null" || |payload| == 0 then Skip
            else Data(payload)
  {
    if |payload| > 0 {
      var line := PREFIX + payload;
      assert Tight(line) by {
        assert line[0] == 'd' && line[|line| - 1] == payload[|payload| - 1];
      }
      assert pre + PREFIX + payload + post == pre + line + post;
      TrimSpaceBetween(pre, line, post);
      assert line[|PREFIX|..] == payload && "" + payload + "" == payload;
      TrimSpaceBetween("", payload, "");
    } else {
      BlankPayload(pre, post);
      assert pre + PREFIX + payload + post == pre + PREFIX + post;
    }
  }

  /** A line without the prefix means nothing. */
  lemma OtherLineMeansNothing(raw: string)
    requires !("data: " <= TrimSpace(raw))
    ensures Classify(raw) == Skip
  {}

  lemma {:induction false} EventsOfAppend<E>(a: seq<Line>, b: seq<Line>, parse: string -> Option<E>)
    ensures EventsOf(a + b, parse) ==
            if exists i :: 0 <= i < |a| && a[i].Stop? then EventsOf(a, parse) else EventsOf(a, parse) + EventsOf(b, parse)
  {
    if |a| == 0 {
      assert a + b == b;
    } else {
      assert (a + b)[1..] == a[1..] + b;
      EventsOfAppend(a[1..], b, parse);
      if !a[0].Stop? {
        assert (exists i :: 0 <= i < |a| && a[i].Stop?) <==> exists i :: 0 <= i < |a[1..]| && a[1..][i].Stop? by {
          if i :| 0 <= i < |a| && a[i].Stop? {
            assert a[1..][i - 1].Stop?;
          }
          if i :| 0 <= i < |a[1..]| && a[1..][i].Stop? {
            assert a[i + 1].Stop?;
          }
        }
        Associative(Heard(a[0], parse), EventsOf(a[1..], parse), EventsOf(b, parse));
      }
    }
  }

  lemma {:induction false} ClassifiedAppend(a: seq<string>, b: seq<string>)
    ensures Classified(a + b) == Classified(a) + Classified(b)
  {
    if |a| == 0 {
      assert a + b == b;
    } else {
      assert (a + b)[1..] == a[1..] + b;
      ClassifiedAppend(a[1..], b);
    }
  }

  lemma OneLine<E>(line: string, parse: string -> Option<E>)
    ensures EventsOf(Classified([line]), parse) ==
            match Classify(line)
            case Data(payload) => if parse(payload).Some? then [parse(payload).value] else []
            case _ => []
  {
    var marks := Classified([line]);
    assert |marks[1..]| == 0;
    if !marks[0].Stop? {
      assert Heard(marks[0], parse) + EventsOf(marks[1..], parse) == Heard(marks[0], parse);
    }
  }

  /** One more line gives one more event if it carries a payload that parses, and nothing after an end marker. */
  lemma LineByLine<E>(lines: seq<string>, line: string, parse: string -> Option<E>)
    ensures var before := Events(lines, parse);
      Events(lines + [line], parse) ==
      if exists i :: 0 <= i < |lines| && Classify(lines[i]).Stop? then before
      else match Classify(line)
           case Data(payload) => if parse(payload).Some? then before + [parse(payload).value] else before
           case _ => before
    ensures |lines| == 0 ==> |Events(lines, parse)| == 0
  {
    ClassifiedAppend(lines, [line]);
    EventsOfAppend(Classified(lines), Classified([line]), parse);
    assert (exists i :: 0 <= i < |lines| && Classify(lines[i]).Stop?) <==>
           exists i :: 0 <= i < |Classified(lines)| && Classified(lines)[i].Stop? by {
      assert forall i :: 0 <= i < |lines| ==> Classified(lines)[i] == Classify(lines[i]);
    }
    OneLine(line, parse);
  }

  /** The callback is handed the events in order, up to the first, that one included, after which it asks for no more. */
  lemma {:induction false} UntilRefused<E>(events: seq<E>, goOn: (nat, E) -> bool, first: nat)
    ensures var r := Until(events, goOn, first);
      && r <= events && (|events| > 0 ==> |r| > 0)
      && (forall i :: 0 <= i < |r| - 1 ==> goOn(first + i, r[i]))
      && (|r| < |events| ==> !goOn(first + |r| - 1, r[|r| - 1]))
    decreases |events|
  {
    if |events| > 0 && goOn(first, events[0]) {
      UntilRefused(events[1..], goOn, first + 1);
      var r, rest := Until(events, goOn, first), Until(events[1..], goOn, first + 1);
      assert r == [events[0]] + rest;
      forall i | 0 <= i < |r| - 1 ensures goOn(first + i, r[i]) {
        if i > 0 {
          assert goOn(first + 1 + (i - 1), rest[i - 1]);
        }
      }
      assert events == [events[0]] + events[1..];
    }
  }

  /** Line `i` ends the loop: an end marker, or an event after which the callback asks for no more. */
  predicate EndsLoop<E>(marks: seq<Line>, parse: string -> Option<E>, goOn: (nat, E) -> bool, i: nat)
    requires i < |marks|
  {
    match marks[i]
    case Stop => true
    case Skip => false
    case Data(payload) => parse(payload).Some? && !goOn(|EventsOf(marks[..i], parse)|, parse(payload).value)
  }

  lemma OneMoreMark<E>(marks: seq<Line>, parse: string -> Option<E>, i: nat)
    requires i < |marks| && forall j :: 0 <= j <= i ==> !marks[j].Stop?
    ensures EventsOf(marks[..i + 1], parse) == EventsOf(marks[..i], parse) + Heard(marks[i], parse)
  {
    var mark := [marks[i]];
    assert marks[..i + 1] == marks[..i] + mark && |mark[1..]| == 0;
    EventsOfAppend(marks[..i], mark, parse);
    assert EventsOf(mark, parse) == Heard(marks[i], parse) + EventsOf(mark[1..], parse) == Heard(marks[i], parse);
  }

  lemma NoStopSoFar<E>(marks: seq<Line>, parse: string -> Option<E>, goOn: (nat, E) -> bool, i: nat)
    requires i < |marks| && forall j :: 0 <= j <= i ==> !EndsLoop(marks, parse, goOn, j)
    ensures forall j :: 0 <= j <= i ==> !marks[j].Stop?
  {
    forall j | 0 <= j <= i ensures !marks[j].Stop? {
      assert !EndsLoop(marks, parse, goOn, j);
    }
  }

  lemma ReadOneMark<E>(marks: seq<Line>, parse: string -> Option<E>, goOn: (nat, E) -> bool, i: nat)
    requires i < |marks| && forall j :: 0 <= j < i ==> !EndsLoop(marks, parse, goOn, j)
    ensures MarksRead(marks[i..], parse, goOn, |EventsOf(marks[..i], parse)|) ==
            1 + if EndsLoop(marks, parse, goOn, i) then 0
                else MarksRead(marks[i + 1..], parse, goOn, |EventsOf(marks[..i + 1], parse)|)
  {
    assert marks[i..][0] == marks[i] && marks[i..][1..] == marks[i + 1..];
    if !EndsLoop(marks, parse, goOn, i) {
      NoStopSoFar(marks, parse, goOn, i);
      OneMoreMark(marks, parse, i);
    }
  }

  lemma {:induction false} MarksReadFrom<E>(marks: seq<Line>, parse: string -> Option<E>, goOn: (nat, E) -> bool, i: nat)
    requires i <= |marks| && forall j :: 0 <= j < i ==> !EndsLoop(marks, parse, goOn, j)
    ensures var n := i + MarksRead(marks[i..], parse, goOn, |EventsOf(marks[..i], parse)|);
      && n <= |marks|
      && (forall j :: 0 <= j < n - 1 ==> !EndsLoop(marks, parse, goOn, j))
      && (n < |marks| ==> n > 0 && EndsLoop(marks, parse, goOn, n - 1))
    decreases |marks| - i
  {
    if i < |marks| {
      ReadOneMark(marks, parse, goOn, i);
      if !EndsLoop(marks, parse, goOn, i) {
        MarksReadFrom(marks, parse, goOn, i + 1);
      }
    }
  }

  /** The lines read are those up to the first that ends the loop, that one included, or all of them. */
  lemma LinesReadEnds<E>(lines: seq<string>, parse: string -> Option<E>, goOn: (nat, E) -> bool)
    ensures var n, marks := LinesRead(lines, parse, goOn), Classified(lines);
      && n <= |lines|
      && (forall j :: 0 <= j < n - 1 ==> !EndsLoop(marks, parse, goOn, j))
      && (n < |lines| ==> n > 0 && EndsLoop(marks, parse, goOn, n - 1))
  {
    var marks := Classified(lines);
    MarksReadFrom(marks, parse, goOn, 0);
    assert marks[0..] == marks && |EventsOf(marks[..0], parse)| == 0;
  }
}
