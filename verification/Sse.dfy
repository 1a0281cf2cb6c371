/** Turn frames as server-sent events, section 9.2 of the WHATWG HTML Standard: printed, parsed and re-printed. */
module Sse {
  import opened Wrappers
  import opened Text

  /** A JSON value, as far as the frames look into it. */
  datatype Json = Object(fields: map<string, Json>) | Text(text: string) | Scalar(raw: string)

  /** `json.dumps` and `json.loads`. */
  datatype Codec = Codec(dumps: Json -> string, loads: string -> Option<Json>)

  /** The JSON text of `o` is one line, is not empty, and loads back. */
  predicate RoundTrips(c: Codec, o: Json) {
    '\n' !in c.dumps(o) && c.dumps(o) != "" && c.loads(c.dumps(o)) == Some(o)
  }

  /** One queued event: its name and an object. */
  datatype Frame = Frame(name: string, data: Json)

  /** Event names as core queues them, one line without white space around, and an object that can be sent. */
  predicate Printable(c: Codec, f: Frame) {
    f.data.Object? && RoundTrips(c, f.data) && '\n' !in f.name && Strip(f.name) == f.name
  }

  const EVENT := "event"
  const DATA := "data"

  // --- printing -----------------------------------------------------------------------

  function PrintFrame(c: Codec, f: Frame): string {
    "event: " + f.name + "\ndata: " + c.dumps(f.data) + "\n\n"
  }

  function Print(c: Codec, frames: seq<Frame>): string {
    if frames == [] then "" else PrintFrame(c, frames[0]) + Print(c, frames[1..])
  }

  /** The lines of a body, each without its line end. */
  function Lines(body: string): seq<string> {
    var parts := Split(body, '\n');
    if parts[|parts| - 1] == "" then parts[..|parts| - 1] else parts
  }

  // --- parsing ----------------------------------------------------------------------------

  /** `line.partition(":")`: the part before the first colon and the part behind it. */
  function Partition(line: string): (string, string) {
    var i := Find(line, ':');
    if i == |line| then (line, "") else (line[..i], line[i + 1..])
  }

  /** One optional space behind the colon is dropped. */
  function DataOf(value: string): string {
    if value != "" && value[0] == ' ' then value[1..] else value
  }

  /** `_parse_data` and `parse_data`. */
  function ParseData(c: Codec, lines: seq<string>): Json {
    var raw := Join(lines, '\n');
    if raw == "" then Object(map[])
    else
      match c.loads(raw)
      case None => Object(map["text" := Text(raw)])
      case Some(Object(fields)) => Object(fields)
      case Some(other) => Object(map["value" := other])
  }

  /** The frames of `lines`, from a state in which `name` and `data` were already read. */
  function Frames(c: Codec, name: Option<string>, data: seq<string>, lines: seq<string>): seq<Frame>
    decreases lines
  {
    if lines == [] then if name.Some? then [Frame(name.value, ParseData(c, data))] else []
    else if lines[0] == "" then
      (if name.Some? then [Frame(name.value, ParseData(c, data))] else []) + Frames(c, None, [], lines[1..])
    else
      var (field, value) := Partition(lines[0]);
      if field == EVENT then Frames(c, Some(Strip(value)), data, lines[1..])
      else if field == DATA then Frames(c, name, data + [DataOf(value)], lines[1..])
      else Frames(c, name, data, lines[1..])
  }

  function Parse(c: Codec, body: string): seq<Frame> {
    Frames(c, None, [], Lines(body))
  }

  /** The loop of `_iter_sse` and `frames`. */
  method IterFrames(c: Codec, lines: seq<string>) returns (out: seq<Frame>)
    ensures out == Frames(c, None, [], lines)
  {
    var name: Option<string> := None;
    var data: seq<string> := [];
    out := [];
    for i := 0 to |lines|
      invariant Frames(c, None, [], lines) == out + Frames(c, name, data, lines[i..])
    {
      assert lines[i..][1..] == lines[i + 1..];
      if lines[i] == "" {
        ghost var rest := Frames(c, None, [], lines[i + 1..]);
        if name.Some? {
          ghost var before := out;
          out := out + [Frame(name.value, ParseData(c, data))];
          assert before + ([Frame(name.value, ParseData(c, data))] + rest) == out + rest;
        } else {
          assert [] + rest == rest;
        }
        name, data := None, [];
        continue;
      }
      var (field, value) := Partition(lines[i]);
      if field == EVENT {
        name := Some(Strip(value));
      } else if field == DATA {
        data := data + [DataOf(value)];
      }
    }
    if name.Some? {
      out := out + [Frame(name.value, ParseData(c, data))];
    }
  }

  // --- one hop ---------------------------------------------------------------------------------

  function EventLine(f: Frame): string { "event: " + f.name }
  function DataLine(c: Codec, f: Frame): string { "data: " + c.dumps(f.data) }

  function FrameLines(c: Codec, frames: seq<Frame>): seq<string> {
    if frames == [] then [] else [EventLine(frames[0]), DataLine(c, frames[0]), ""] + FrameLines(c, frames[1..])
  }

  lemma PrintFrameLines(c: Codec, f: Frame)
    ensures PrintFrame(c, f) == EventLine(f) + "\n" + DataLine(c, f) + "\n\n"
  {
    assert "\ndata: " == "\n" + "data: ";
  }

  lemma {:induction false} PrintIsLines(c: Codec, frames: seq<Frame>)
    ensures Print(c, frames) == Join(FrameLines(c, frames) + [""], '\n')
  {
    if frames == [] {
      assert FrameLines(c, frames) + [""] == [""];
    } else {
      var f, three := frames[0], [EventLine(frames[0]), DataLine(c, frames[0]), ""];
      PrintIsLines(c, frames[1..]);
      Associative(three, FrameLines(c, frames[1..]), [""]);
      JoinThree(EventLine(f), DataLine(c, f), FrameLines(c, frames[1..]) + [""]);
      PrintFrameLines(c, f);
    }
  }

  lemma {:induction false} LinesPlain(c: Codec, frames: seq<Frame>)
    requires forall i :: 0 <= i < |frames| ==> Printable(c, frames[i])
    ensures forall l | l in FrameLines(c, frames) :: '\n' !in l
  {
    if frames != [] {
      LinesPlain(c, frames[1..]);
      assert '\n' !in EventLine(frames[0]) && '\n' !in DataLine(c, frames[0]);
    }
  }

  lemma JoinThree(a: string, b: string, rest: seq<string>)
    requires rest != []
    ensures Join([a, b, ""] + rest, '\n') == a + "\n" + b + "\n\n" + Join(rest, '\n')
  {
    JoinCons(a, [b, ""] + rest, '\n');
    JoinCons(b, [""] + rest, '\n');
    JoinCons("", rest, '\n');
    assert [a, b, ""] + rest == [a] + ([b, ""] + rest) && [b, ""] + rest == [b] + ([""] + rest);
    var tail := Join(rest, '\n');
    assert a + "\n" + (b + "\n" + ("" + "\n" + tail)) == a + "\n" + b + "\n\n" + tail;
  }

  lemma LinesOfPrint(c: Codec, frames: seq<Frame>)
    requires forall i :: 0 <= i < |frames| ==> Printable(c, frames[i])
    ensures Lines(Print(c, frames)) == FrameLines(c, frames)
  {
    PrintIsLines(c, frames);
    LinesPlain(c, frames);
    var lines := FrameLines(c, frames);
    SplitJoin(lines + [""], '\n');
    assert (lines + [""])[..|lines|] == lines;
  }

  lemma PartitionLine(field: string, value: string)
    requires ':' !in field
    ensures Partition(field + ":" + value) == (field, value)
  {
    var line := field + ":" + value;
    assert line[..|field|] == field;
    FindUnique(line, ':', |field|);
  }

  lemma StripLeading(s: string)
    ensures Strip(" " + s) == Strip(s)
  {
    assert (" " + s)[1..] == s;
  }

  /** The lines of one frame parse to that frame, whatever follows. */
  lemma FrameParses(c: Codec, f: Frame, rest: seq<string>)
    requires Printable(c, f)
    ensures Frames(c, None, [], [EventLine(f), DataLine(c, f), ""] + rest) == [f] + Frames(c, None, [], rest)
  {
    hide Partition, DataOf, Strip, ParseData, Printable, EventLine, DataLine;
    EventParses(c, f, [DataLine(c, f), ""] + rest);
    assert [EventLine(f), DataLine(c, f), ""] + rest == [EventLine(f)] + ([DataLine(c, f), ""] + rest);
    DataParses(c, f, [""] + rest);
    assert [DataLine(c, f), ""] + rest == [DataLine(c, f)] + ([""] + rest);
    assert ([""] + rest)[1..] == rest;
    DataBack(c, f);
  }

  lemma EventParses(c: Codec, f: Frame, rest: seq<string>)
    requires Printable(c, f)
    ensures Frames(c, None, [], [EventLine(f)] + rest) == Frames(c, Some(f.name), [], rest)
  {
    var line := EventLine(f);
    assert line == EVENT + ":" + (" " + f.name);
    PartitionLine(EVENT, " " + f.name);
    StripLeading(f.name);
    assert ([line] + rest)[1..] == rest && line != "";
  }

  lemma DataParses(c: Codec, f: Frame, rest: seq<string>)
    ensures Frames(c, Some(f.name), [], [DataLine(c, f)] + rest) == Frames(c, Some(f.name), [c.dumps(f.data)], rest)
  {
    var line := DataLine(c, f);
    assert line == DATA + ":" + (" " + c.dumps(f.data));
    PartitionLine(DATA, " " + c.dumps(f.data));
    assert (" " + c.dumps(f.data))[1..] == c.dumps(f.data);
    assert DATA[0] != EVENT[0];
    assert ([line] + rest)[1..] == rest && line != "";
    assert [] + [c.dumps(f.data)] == [c.dumps(f.data)];
  }

  lemma DataBack(c: Codec, f: Frame)
    requires Printable(c, f)
    ensures ParseData(c, [c.dumps(f.data)]) == f.data
  {
    assert Join([c.dumps(f.data)], '\n') == c.dumps(f.data);
  }

  lemma RegroupFrames(f: Frame, frames: seq<Frame>, rest: seq<Frame>)
    requires frames != [] && f == frames[0]
    ensures [f] + (frames[1..] + rest) == frames + rest
  {
  }

  lemma {:induction false} LinesParse(c: Codec, frames: seq<Frame>, rest: seq<string>)
    requires forall i :: 0 <= i < |frames| ==> Printable(c, frames[i])
    ensures Frames(c, None, [], FrameLines(c, frames) + rest) == frames + Frames(c, None, [], rest)
    decreases frames
  {
    if frames == [] {
      assert FrameLines(c, frames) + rest == rest;
    } else {
      var f, more := frames[0], FrameLines(c, frames[1..]);
      Associative([EventLine(f), DataLine(c, f), ""], more, rest);
      FrameParses(c, f, more + rest);
      LinesParse(c, frames[1..], rest);
      RegroupFrames(f, frames, Frames(c, None, [], rest));
    }
  }

  // --- the whole way ------------------------------------------------------------------------------

  /** What is printed parses to the same frames. */
  lemma HopKeepsFrames(c: Codec, frames: seq<Frame>)
    requires forall i :: 0 <= i < |frames| ==> Printable(c, frames[i])
    ensures Parse(c, Print(c, frames)) == frames
  {
    LinesOfPrint(c, frames);
    LinesParse(c, frames, []);
    assert FrameLines(c, frames) + [] == FrameLines(c, frames);
  }

  /** From core through channels to the terminal: printed, parsed, printed again and parsed again. */
  lemma TwoHopsKeepFrames(c: Codec, frames: seq<Frame>)
    requires forall i :: 0 <= i < |frames| ==> Printable(c, frames[i])
    ensures Parse(c, Print(c, Parse(c, Print(c, frames)))) == frames
  {
    HopKeepsFrames(c, frames);
  }

  /**
   A connection that breaks between two lines never invents or reorders a frame. It loses the frames
   that were not begun; a frame cut behind its name arrives without its data, and one cut behind its
   data arrives whole.
   */
  lemma BrokenStreamKeepsPrefix(c: Codec, frames: seq<Frame>, k: nat, cut: nat)
    requires forall i :: 0 <= i < |frames| ==> Printable(c, frames[i])
    requires k < |frames| && cut < 3
    ensures var whole := FrameLines(c, frames[..k]);
            var torn := [EventLine(frames[k]), DataLine(c, frames[k]), ""][..cut];
            && whole + torn <= FrameLines(c, frames)
            && Frames(c, None, [], whole + torn) ==
                 frames[..k] + (if cut == 0 then [] else if cut == 1 then [Frame(frames[k].name, Object(map[]))] else [frames[k]])
  {
    var f := frames[k];
    var all := [EventLine(f), DataLine(c, f), ""];
    assert forall i :: 0 <= i < k ==> frames[..k][i] == frames[i];
    LinesParse(c, frames[..k], all[..cut]);
    LinesSplit(c, frames, k);
    TornFrame(c, f, cut);
    assert all[..cut] <= all + FrameLines(c, frames[k + 1..]);
  }

  lemma TornFrame(c: Codec, f: Frame, cut: nat)
    requires Printable(c, f) && cut < 3
    ensures Frames(c, None, [], [EventLine(f), DataLine(c, f), ""][..cut]) ==
              if cut == 0 then [] else if cut == 1 then [Frame(f.name, Object(map[]))] else [f]
  {
    var all := [EventLine(f), DataLine(c, f), ""];
    if cut == 1 {
      assert all[..1] == [EventLine(f)] + [];
      EventParses(c, f, []);
    } else if cut == 2 {
      assert all[..2] == [EventLine(f)] + ([DataLine(c, f)] + []);
      EventParses(c, f, [DataLine(c, f)] + []);
      DataParses(c, f, []);
      DataBack(c, f);
    }
  }

  lemma {:induction false} LinesSplit(c: Codec, frames: seq<Frame>, k: nat)
    requires k < |frames|
    ensures FrameLines(c, frames) ==
              FrameLines(c, frames[..k]) + ([EventLine(frames[k]), DataLine(c, frames[k]), ""] + FrameLines(c, frames[k + 1..]))
    decreases k
  {
    if k > 0 {
      LinesSplit(c, frames[1..], k - 1);
      assert frames[..k][1..] == frames[1..][..k - 1];
      assert frames[1..][k..] == frames[k + 1..];
    } else {
      assert frames[..0] == [];
    }
  }
}
