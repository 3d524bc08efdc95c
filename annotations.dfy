/**
 * `Annotation`: an opaque, fully qualified tag name carried by tables, fields
 * and actions (src/tdi_json_parser/tdi_table_info.cpp:30-42).
 */
module Annotations {
  import opened Types
  import opened StringOrder

  datatype Annotation = Annotation(fullName: string)

  /**
   * `operator<`: compares the full names as strings. Two annotations it
   * orders are distinct, and never ordered both ways.
   */
  predicate Less(a: Annotation, b: Annotation)
    ensures Less(a, b) ==> a != b && !LexLess(b.fullName, a.fullName)
  {
    if LexLess(a.fullName, b.fullName) then
      LexLessAsymmetric(a.fullName, b.fullName);
      true
    else false
  }

  /** `operator==` against another annotation: an annotation is nothing but its name. */
  predicate Equals(a: Annotation, b: Annotation)
    ensures Equals(a, b) <==> a == b
  {
    a.fullName == b.fullName
  }

  /** `operator==` against a raw string: true exactly for the annotation built from that string. */
  predicate EqualsString(a: Annotation, s: string)
    ensures EqualsString(a, s) <==> a == Annotation(s)
  {
    a.fullName == s
  }

  /** `fullNameGet`: copies the name out; it has no failure path. */
  function FullNameGet(a: Annotation): (r: (Status, string))
    ensures r.0 == Success
    ensures EqualsString(a, r.1) && Annotation(r.1) == a
  {
    (Success, a.fullName)
  }

  /**
   * `operator<` is a strict total order, so a sorted container of annotations
   * keeps one copy of each distinct name.
   */
  lemma LessIsStrictTotalOrder(a: Annotation, b: Annotation, c: Annotation)
    ensures !Less(a, a)
    ensures Less(a, b) ==> !Less(b, a)
    ensures Less(a, b) && Less(b, c) ==> Less(a, c)
    ensures Equals(a, b) || Less(a, b) || Less(b, a)
  {
    LexLessIrreflexive(a.fullName);
    if Less(a, b) {
      LexLessAsymmetric(a.fullName, b.fullName);
      if Less(b, c) {
        LexLessTransitive(a.fullName, b.fullName, c.fullName);
      }
    }
    LexLessTotal(a.fullName, b.fullName);
  }

  /** The equivalence `operator<` induces is exactly `operator==`. */
  lemma EqualsIffIncomparable(a: Annotation, b: Annotation)
    ensures Equals(a, b) <==> !Less(a, b) && !Less(b, a)
  {
    LexLessIrreflexive(a.fullName);
    LexLessTotal(a.fullName, b.fullName);
  }

  /** Both `operator==` overloads agree: an annotation equals another exactly when it equals that one's name. */
  lemma EqualsAgreesWithName(a: Annotation, b: Annotation)
    ensures Equals(a, b) <==> EqualsString(a, FullNameGet(b).1)
    ensures Equals(a, b) <==> a == b
  {
  }
}
