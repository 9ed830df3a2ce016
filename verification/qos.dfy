/**
 * QoS class table of the UMTS visualizer (app.py, lines 13 and 64-74).
 *
 * The four UMTS traffic classes map to a fixed pair of descriptive labels,
 * a latency and a data rate.  The table is a dictionary keyed by the class
 * name the selectbox returns; a name outside the table would raise a
 * KeyError, modelled here as None.
 */
module Qos {

  datatype Option<T> = None | Some(value: T)

  /** The four traffic classes, in the selectbox order of line 13. */
  datatype QosClass = Conversational | Streaming | Interactive | Background

  /** The four-step scale both labels are drawn from. */
  datatype Level = VeryLow | Low | Medium | High

  /** One row of the table: the latency and the data rate of a class. */
  datatype QosProfile = QosProfile(latency: Level, dataRate: Level)

  /** The options of the selectbox, in their displayed order. */
  const Classes: seq<QosClass> := [Conversational, Streaming, Interactive, Background]

  /** Position on the four-step scale, from "Very Low" (0) to "High" (3). */
  function Rank(l: Level): (r: nat)
    ensures r < 4
  {
    match l
    case VeryLow => 0
    case Low => 1
    case Medium => 2
    case High => 3
  }

  function LevelName(l: Level): string {
    match l
    case VeryLow => "Very Low"
    case Low => "Low"
    case Medium => "Medium"
    case High => "High"
  }

  /** The dictionary key of a class. */
  function ClassName(c: QosClass): string {
    match c
    case Conversational => "Conversational"
    case Streaming => "Streaming"
    case Interactive => "Interactive"
    case Background => "Background"
  }

  /** The position of a class among the selectbox options. */
  function Index(c: QosClass): (i: nat)
    ensures i < |Classes| && Classes[i] == c
  {
    match c
    case Conversational => 0
    case Streaming => 1
    case Interactive => 2
    case Background => 3
  }

  /** Key lookup in the table: the class whose name is `name`, if any. */
  function ParseClass(name: string): (r: Option<QosClass>)
    ensures r.Some? ==> ClassName(r.value) == name
    ensures r.None? ==> forall c :: ClassName(c) != name
  {
    if name == "Conversational" then Some(Conversational)
    else if name == "Streaming" then Some(Streaming)
    else if name == "Interactive" then Some(Interactive)
    else if name == "Background" then Some(Background)
    else None
  }

  /**
   * The `qos_mapping` table.  The latency requirement loosens strictly along
   * the selectbox order: the latency rank of a class is its position.
   */
  function Lookup(c: QosClass): (p: QosProfile)
    ensures Rank(p.latency) == Index(c)
    ensures p.dataRate != VeryLow
  {
    match c
    case Conversational => QosProfile(VeryLow, Medium)
    case Streaming => QosProfile(Low, High)
    case Interactive => QosProfile(Medium, Medium)
    case Background => QosProfile(High, Low)
  }

  /** The two strings lines 73-74 show: the latency and the data rate. */
  function Describe(c: QosClass): (labels: (string, string))
    ensures labels.0 == LevelName(Lookup(c).latency)
    ensures labels.1 == LevelName(Lookup(c).dataRate)
  {
    var p := Lookup(c);
    (LevelName(p.latency), LevelName(p.dataRate))
  }

  /** `qos_mapping[qos_class]` on a name: None where the dictionary has no such key. */
  function LookupByName(name: string): (r: Option<(string, string)>)
    ensures r.Some? <==> exists c :: ClassName(c) == name
    ensures forall c :: ClassName(c) == name ==> r == Some(Describe(c))
  {
    match ParseClass(name)
    case Some(c) => Some(Describe(c))
    case None => None
  }

  // ---------------------------------------------------------------------
  // Lemmas
  // ---------------------------------------------------------------------

  /** The exact labels of every row of the table. */
  lemma LookupTable()
    ensures Describe(Conversational) == ("Very Low", "Medium")
    ensures Describe(Streaming) == ("Low", "High")
    ensures Describe(Interactive) == ("Medium", "Medium")
    ensures Describe(Background) == ("High", "Low")
  {
  }

  /** Every selectbox option is a key of the table, so the lookup never misses. */
  lemma SelectboxOptionsAreKeys()
    ensures forall i :: 0 <= i < |Classes| ==> LookupByName(ClassName(Classes[i])).Some?
  {
    forall i | 0 <= i < |Classes|
      ensures LookupByName(ClassName(Classes[i])).Some?
    {
      ParseRoundTrip(Classes[i]);
    }
  }

  /** The class names and the key lookup are inverse to each other. */
  lemma ParseRoundTrip(c: QosClass)
    ensures ParseClass(ClassName(c)) == Some(c)
  {
  }

  /** No two classes share a row of the table. */
  lemma LookupInjective(c1: QosClass, c2: QosClass)
    requires Lookup(c1) == Lookup(c2)
    ensures c1 == c2
  {
    assert Index(c1) == Rank(Lookup(c1).latency) == Index(c2);
    assert Classes[Index(c1)] == c1 && Classes[Index(c2)] == c2;
  }

  /** A class selected later in the list never has a tighter latency. */
  lemma LatencyOrdered(c1: QosClass, c2: QosClass)
    ensures Index(c1) < Index(c2) <==> Rank(Lookup(c1).latency) < Rank(Lookup(c2).latency)
  {
  }
}
