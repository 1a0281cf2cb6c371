/** Who is speaking on a voice device, and for how long an identity is held there. */
module Voice {
  import opened Wrappers

  datatype Person = Person(id: string, voice: seq<string>, member: bool)

  /** The roster and the voice settings. */
  datatype Config = Config(
    people: seq<Person>, threadPerson: bool, minConfidence: real, holdSeconds: int, defaults: map<string, string>)

  datatype Turn = Turn(now: real, device: string, speaker: string, confidence: Option<real>)

  datatype Speaker = Speaker(
    device: string, person: Option<Person>, handle: string, claimed: string, confidence: Option<real>, held: bool)

  // --- the roster ----------------------------------------------------------------------

  function FindPerson(people: seq<Person>, id: string): (r: Option<Person>)
    ensures r.Some? ==> r.value in people && r.value.id == id
    ensures r.None? ==> forall p | p in people :: p.id != id
  {
    if people == [] then None
    else if people[0].id == id then Some(people[0])
    else FindPerson(people[1..], id)
  }

  function FindByVoice(people: seq<Person>, name: string): (r: Option<Person>)
    ensures r.Some? ==> r.value in people && name in r.value.voice
    ensures r.None? ==> forall p | p in people :: name !in p.voice
  {
    if people == [] then None
    else if name in people[0].voice then Some(people[0])
    else FindByVoice(people[1..], name)
  }

  /** No two people share an id or a voice handle. */
  predicate Unique(people: seq<Person>) {
    forall i, j :: 0 <= i < j < |people| ==>
      people[i].id != people[j].id && forall n | n in people[i].voice :: n !in people[j].voice
  }

  function HandleOf(p: Person): string {
    if p.voice != [] && p.voice[0] != "" then p.voice[0] else p.id
  }

  // --- one turn, before the hold ------------------------------------------------------------

  predicate Trusted(cfg: Config, t: Turn) {
    t.confidence.None? || t.confidence.value >= cfg.minConfidence
  }

  function ByName(cfg: Config, t: Turn): Option<Person> {
    if t.speaker != "" && Trusted(cfg, t) then FindByVoice(cfg.people, t.speaker) else None
  }

  function ByDefault(cfg: Config, t: Turn): Option<Person> {
    if (t.speaker == "" || !Trusted(cfg, t)) && t.device in cfg.defaults then FindPerson(cfg.people, cfg.defaults[t.device])
    else None
  }

  /** Who the turn itself says is speaking: a trusted name, or the default of the device. */
  function Sure(cfg: Config, t: Turn): Option<Person> {
    if ByName(cfg, t).Some? then ByName(cfg, t) else ByDefault(cfg, t)
  }

  type HoldMap = map<string, (string, real)>

  function Held(m: HoldMap, device: string, now: real): Option<string> {
    if device in m && now < m[device].1 then Some(m[device].0) else None
  }

  function Remembered(m: HoldMap, device: string, id: string, now: real, seconds: int): HoldMap {
    if seconds <= 0 then m else m[device := (id, now + seconds as real)]
  }

  /** The speaker of a turn and the hold after it. */
  function Decide(cfg: Config, m: HoldMap, t: Turn): (Speaker, HoldMap) {
    var sure := Sure(cfg, t);
    if sure.Some? then
      var p := sure.value;
      var handle := if ByName(cfg, t).Some? && t.speaker != "" then t.speaker else HandleOf(p);
      (Speaker(t.device, sure, handle, t.speaker, t.confidence, false),
       Remembered(m, t.device, p.id, t.now, cfg.holdSeconds))
    else
      var id := Held(m, t.device, t.now);
      var after := if id.None? then m - {t.device} else m;
      if id.Some? then
        match FindPerson(cfg.people, id.value)
        case Some(p) => (Speaker(t.device, Some(p), HandleOf(p), t.speaker, t.confidence, true), after)
        case None => (Speaker(t.device, None, "", t.speaker, t.confidence, false), after - {t.device})
      else (Speaker(t.device, None, "", t.speaker, t.confidence, false), after)
  }

  class IdentityHold {
    var entries: HoldMap

    constructor ()
      ensures entries == map[]
    {
      entries := map[];
    }

    method Remember(device: string, id: string, now: real, seconds: int)
      modifies this
      ensures entries == Remembered(old(entries), device, id, now, seconds)
    {
      if seconds <= 0 {
        return;
      }
      entries := entries[device := (id, now + seconds as real)];
    }

    /** `held`: an expired entry is dropped when it is read. */
    method Lookup(device: string, now: real) returns (id: Option<string>)
      modifies this
      ensures id == Held(old(entries), device, now)
      ensures entries == if id.None? then old(entries) - {device} else old(entries)
    {
      if device !in entries {
        assert entries - {device} == entries;
        return None;
      }
      var (person, expires) := entries[device];
      if now >= expires {
        entries := entries - {device};
        return None;
      }
      return Some(person);
    }

    method Forget(device: string)
      modifies this
      ensures entries == old(entries) - {device}
    {
      entries := entries - {device};
    }

    /** `count`: the devices that hold a live identity. */
    method Count(now: real) returns (n: nat)
      ensures n == |set d | d in entries && Held(entries, d, now).Some?|
    {
      var live := set d | d in entries && now < entries[d].1;
      assert live == set d | d in entries && Held(entries, d, now).Some?;
      n := |live|;
    }

    /** `identify` */
    method Identify(cfg: Config, t: Turn) returns (s: Speaker)
      modifies this
      ensures (s, entries) == Decide(cfg, old(entries), t)
    {
      var person: Option<Person> := None;
      var trusted := Trusted(cfg, t);
      if t.speaker != "" && trusted {
        person := FindByVoice(cfg.people, t.speaker);
      }
      var viaDefault := false;
      if person.None? && (t.speaker == "" || !trusted) && t.device in cfg.defaults {
        person := FindPerson(cfg.people, cfg.defaults[t.device]);
        viaDefault := person.Some?;
      }
      if person.Some? {
        var handle := if viaDefault || t.speaker == "" then HandleOf(person.value) else t.speaker;
        Remember(t.device, person.value.id, t.now, cfg.holdSeconds);
        return Speaker(t.device, person, handle, t.speaker, t.confidence, false);
      }
      var id := Lookup(t.device, t.now);
      if id.Some? {
        var heldPerson := FindPerson(cfg.people, id.value);
        if heldPerson.Some? {
          return Speaker(t.device, heldPerson, HandleOf(heldPerson.value), t.speaker, t.confidence, true);
        }
        Forget(t.device);
      }
      return Speaker(t.device, None, "", t.speaker, t.confidence, false);
    }
  }

  // --- whole runs -----------------------------------------------------------------------------

  function HoldAfter(cfg: Config, turns: seq<Turn>): HoldMap {
    if turns == [] then map[] else Decide(cfg, HoldAfter(cfg, turns[..|turns| - 1]), turns[|turns| - 1]).1
  }

  function SpeakerAt(cfg: Config, turns: seq<Turn>, k: nat): Speaker
    requires k < |turns|
  {
    Decide(cfg, HoldAfter(cfg, turns[..k]), turns[k]).0
  }

  /** The clock never runs backwards. */
  predicate Timed(turns: seq<Turn>) {
    forall i, j :: 0 <= i < j < |turns| ==> turns[i].now <= turns[j].now
  }

  /** The last turn on `device` that was sure by itself. */
  function LastSure(cfg: Config, turns: seq<Turn>, device: string): (r: Option<nat>)
    ensures r.Some? ==> r.value < |turns| && turns[r.value].device == device && Sure(cfg, turns[r.value]).Some?
    ensures forall i :: (if r.Some? then r.value else -1) < i < |turns| && turns[i].device == device ==> Sure(cfg, turns[i]).None?
  {
    if turns == [] then None
    else
      var n := |turns| - 1;
      if turns[n].device == device && Sure(cfg, turns[n]).Some? then Some(n)
      else
        var r := LastSure(cfg, turns[..n], device);
        assert forall i :: 0 <= i < n ==> turns[..n][i] == turns[i];
        r
  }

  /** What the hold says of `device` at `now`: the last sure person, while the hold lasts. */
  function HeldPerson(cfg: Config, turns: seq<Turn>, device: string, now: real): Option<Person> {
    var j := LastSure(cfg, turns, device);
    if j.Some? && cfg.holdSeconds > 0 && now < turns[j.value].now + cfg.holdSeconds as real then Sure(cfg, turns[j.value])
    else None
  }

  lemma SureIsKnown(cfg: Config, t: Turn)
    requires Unique(cfg.people) && Sure(cfg, t).Some?
    ensures FindPerson(cfg.people, Sure(cfg, t).value.id) == Sure(cfg, t)
  {
    SameId(cfg.people, Sure(cfg, t).value);
  }

  lemma SameId(people: seq<Person>, p: Person)
    requires Unique(people) && p in people
    ensures FindPerson(people, p.id) == Some(p)
  {
    var q := FindPerson(people, p.id).value;
    var i :| 0 <= i < |people| && people[i] == p;
    var j :| 0 <= j < |people| && people[j] == q;
  }

  lemma HeldAfterStep(cfg: Config, m: HoldMap, t: Turn, device: string, now: real)
    requires t.now <= now
    ensures Held(Decide(cfg, m, t).1, device, now) ==
              if t.device != device then Held(m, device, now)
              else if Sure(cfg, t).Some? && cfg.holdSeconds > 0 then
                if now < t.now + cfg.holdSeconds as real then Some(Sure(cfg, t).value.id) else None
              else if Sure(cfg, t).None? && Held(m, device, t.now).Some?
                      && FindPerson(cfg.people, Held(m, device, t.now).value).None? then None
              else Held(m, device, now)
  {
  }

  /** The map holds an entry for `device` at `now` exactly when the history says so. */
  lemma {:induction false} HoldIsHistory(cfg: Config, turns: seq<Turn>, device: string, now: real)
    requires Unique(cfg.people) && Timed(turns) && forall i :: 0 <= i < |turns| ==> turns[i].now <= now
    ensures var p := HeldPerson(cfg, turns, device, now);
            Held(HoldAfter(cfg, turns), device, now) == if p.Some? then Some(p.value.id) else None
    decreases turns
  {
    if turns != [] {
      var n := |turns| - 1;
      var t := turns[n];
      assert forall i :: 0 <= i < n ==> turns[..n][i] == turns[i];
      HoldIsHistory(cfg, turns[..n], device, now);
      HeldAfterStep(cfg, HoldAfter(cfg, turns[..n]), t, device, now);
      if t.device == device && Sure(cfg, t).None? {
        HoldIsHistory(cfg, turns[..n], device, t.now);
        var j := LastSure(cfg, turns[..n], device);
        if j.Some? {
          SureIsKnown(cfg, turns[j.value]);
        }
      }
    }
  }

  /**
   A turn is answered as a held speaker exactly when it names nobody for sure itself and the last
   sure turn on the same device is less than `identity_hold_s` ago, and then it is that person. Held
   turns in between do not count, so they never extend the hold.
   */
  lemma HeldSpeakerIsLastSure(cfg: Config, turns: seq<Turn>, k: nat)
    requires Unique(cfg.people) && Timed(turns) && k < |turns|
    ensures var s := SpeakerAt(cfg, turns, k);
            && s.person == (if Sure(cfg, turns[k]).Some? then Sure(cfg, turns[k])
                            else HeldPerson(cfg, turns[..k], turns[k].device, turns[k].now))
            && (s.held <==> Sure(cfg, turns[k]).None? && s.person.Some?)
  {
    var t := turns[k];
    assert forall i :: 0 <= i < k ==> turns[..k][i] == turns[i];
    HoldIsHistory(cfg, turns[..k], t.device, t.now);
    var j := LastSure(cfg, turns[..k], t.device);
    if j.Some? {
      SureIsKnown(cfg, turns[..k][j.value]);
    }
  }

  /** A name below the trust threshold never selects anybody: any other such name, or none, gives the same speaker. */
  lemma UntrustedNameSelectsNobody(cfg: Config, m: HoldMap, t: Turn, other: string)
    requires !Trusted(cfg, t)
    ensures Decide(cfg, m, t.(speaker := other)).0 == Decide(cfg, m, t).0.(claimed := other)
    ensures Decide(cfg, m, t.(speaker := other)).1 == Decide(cfg, m, t).1
  {
  }

  /** A trusted name of the roster always wins, over the default and over the hold. */
  lemma TrustedNameWins(cfg: Config, m: HoldMap, t: Turn, p: Person)
    requires Unique(cfg.people) && Trusted(cfg, t) && p in cfg.people && t.speaker in p.voice && t.speaker != ""
    ensures Decide(cfg, m, t).0.person == Some(p) && Decide(cfg, m, t).0.handle == t.speaker && !Decide(cfg, m, t).0.held
  {
    var q := FindByVoice(cfg.people, t.speaker).value;
    var i :| 0 <= i < |cfg.people| && cfg.people[i] == p;
    var j :| 0 <= j < |cfg.people| && cfg.people[j] == q;
  }

  // --- conversations ---------------------------------------------------------------------------

  const ROAMING := ("voice:threads", "threads")

  predicate Roams(cfg: Config, s: Speaker) {
    cfg.threadPerson && s.person.Some? && s.person.value.member
  }

  /** `conversation_key` */
  function ConversationKey(cfg: Config, s: Speaker): (string, string) {
    if Roams(cfg, s) then ROAMING else ("voice:" + s.device, s.device)
  }

  /**
   Two turns share a conversation exactly when both roam or both stay on one device, with one
   exception: a device called `threads` has the key of the roaming conversation.
   */
  lemma SharedConversation(cfg: Config, a: Speaker, b: Speaker)
    ensures ConversationKey(cfg, a) == ConversationKey(cfg, b) <==>
              || (Roams(cfg, a) && Roams(cfg, b))
              || (!Roams(cfg, a) && !Roams(cfg, b) && a.device == b.device)
              || (Roams(cfg, a) && !Roams(cfg, b) && b.device == "threads")
              || (!Roams(cfg, a) && Roams(cfg, b) && a.device == "threads")
  {
    assert ROAMING.0 == "voice:" + "threads";
  }

  /** A member in the kitchen and a guest on the device `threads` share one. */
  lemma GuestMeetsRoaming()
    ensures var alex, gus := Person("alex", ["alex"], true), Person("gus", ["gus"], false);
            var cfg := Config([alex, gus], true, 0.0, 300, map[]);
            var a := Decide(cfg, map[], Turn(0.0, "kitchen", "alex", None)).0;
            var b := Decide(cfg, map[], Turn(0.0, "threads", "gus", None)).0;
            && Unique(cfg.people) && a.person == Some(alex) && b.person == Some(gus)
            && ConversationKey(cfg, a) == ConversationKey(cfg, b)
  {
    var alex, gus := Person("alex", ["alex"], true), Person("gus", ["gus"], false);
    var cfg := Config([alex, gus], true, 0.0, 300, map[]);
    assert cfg.people[1..] == [gus];
    assert "alex" in alex.voice && "gus" in gus.voice && "gus" !in alex.voice;
    assert ROAMING.0 == "voice:" + "threads";
  }
}
