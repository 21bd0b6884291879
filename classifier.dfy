/** The site class of Table 4 of IS 1893:2025 as determine_site_class in
    backend.py applies it: five closed-open velocity bands, tested from the
    stiffest class down. */
module SiteClassTable {

  datatype SiteClass = A | B | C | D | E

  /** Position of a class from the stiffest (A) to the softest (E). */
  function Rank(c: SiteClass): nat {
    match c
    case A => 0
    case B => 1
    case C => 2
    case D => 3
    case E => 4
  }

  /** The class of a weighted shear-wave velocity. Every velocity falls in
      exactly one band; each band includes its lower bound. */
  function DetermineSiteClass(vs: real): (c: SiteClass)
    ensures c == A <==> 1500.0 <= vs
    ensures c == B <==> 760.0 <= vs < 1500.0
    ensures c == C <==> 360.0 <= vs < 760.0
    ensures c == D <==> 180.0 <= vs < 360.0
    ensures c == E <==> vs < 180.0
  {
    if vs >= 1500.0 then A
    else if vs >= 760.0 then B
    else if vs >= 360.0 then C
    else if vs >= 180.0 then D
    else E
  }

  /** A larger velocity never gives a softer class. */
  lemma {:induction false} ClassMonotoneInVelocity(v1: real, v2: real)
    requires v1 <= v2
    ensures Rank(DetermineSiteClass(v2)) <= Rank(DetermineSiteClass(v1))
  {
  }

  /** The band edges belong to the stiffer class. */
  lemma {:induction false} BoundaryExamples()
    ensures DetermineSiteClass(1500.0) == A
    ensures DetermineSiteClass(760.0) == B
    ensures DetermineSiteClass(759.999) == C
    ensures DetermineSiteClass(360.0) == C
    ensures DetermineSiteClass(180.0) == D
    ensures DetermineSiteClass(179.999) == E
  {
  }
}
