/** The item type of the registry: an immutable process record and its
    priority enumeration (src/main/java/org/pawele/Process.java). */
module Processes {

  /** Priorities in declaration order; the ordinal is the position in it. */
  datatype Priority = Low | Medium | High
  {
    /** The Java enum ordinal: 0 for LOW, 1 for MEDIUM, 2 for HIGH. */
    function Ordinal(): (n: nat)
      ensures n < 3
      ensures n == 0 <==> this == Low
      ensures n == 2 <==> this == High
    {
      match this
      case Low => 0
      case Medium => 1
      case High => 2
    }

    /** Strict comparison of ordinals: HIGH outranks the other two and
        MEDIUM outranks LOW. */
    predicate IsMoreImportantThan(other: Priority): (b: bool)
      ensures b <==> (this == High && other != High) || (this == Medium && other == Low)
    {
      Ordinal() > other.Ordinal()
    }
  }

  /** A process: an opaque unique id and a priority, both fixed for life. */
  datatype Process = Process(id: string, priority: Priority)

  /** The Java constructor `new Process(priority, id)`; note the argument order. */
  function NewProcess(priority: Priority, id: string): (p: Process)
    ensures p.id == id && p.priority == priority
  {
    Process(id, priority)
  }

  lemma IsMoreImportantThanIsIrreflexive(a: Priority)
    ensures !a.IsMoreImportantThan(a)
  {
  }

  lemma IsMoreImportantThanIsAsymmetric(a: Priority, b: Priority)
    ensures a.IsMoreImportantThan(b) ==> !b.IsMoreImportantThan(a)
  {
  }

  lemma IsMoreImportantThanIsTransitive(a: Priority, b: Priority, c: Priority)
    ensures a.IsMoreImportantThan(b) && b.IsMoreImportantThan(c) ==> a.IsMoreImportantThan(c)
  {
  }

  /** Distinct priorities are always comparable, in exactly one direction. */
  lemma IsMoreImportantThanIsTotal(a: Priority, b: Priority)
    ensures a != b <==> (a.IsMoreImportantThan(b) || b.IsMoreImportantThan(a))
  {
  }

  /** HIGH > MEDIUM > LOW; LOW is above nothing and nothing is above HIGH. */
  lemma DeclarationOrder(a: Priority)
    ensures High.IsMoreImportantThan(Medium) && Medium.IsMoreImportantThan(Low)
    ensures !Low.IsMoreImportantThan(a)
    ensures !a.IsMoreImportantThan(High)
    ensures a != High ==> High.IsMoreImportantThan(a)
    ensures a.IsMoreImportantThan(Low) <==> a != Low
  {
  }
}
