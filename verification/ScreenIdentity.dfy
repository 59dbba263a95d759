/**
 When two elements of a screen count as the same one, in terms of their fields,
 and what the report says of two elements that do not.
 */
module ScreenIdentity {
  import opened Json
  import opened Text
  import opened ScreenDiff

  // ---- fields -------------------------------------------------------------------------

  /** The field is a text, and not the empty one. */
  predicate Has(e: Element, name: string) {
    name in e && e[name].Str? && |e[name].s| > 0
  }

  /** Both have the field, with the same text. */
  predicate Shares(a: Element, b: Element, name: string) {
    Has(a, name) && Has(b, name) && a[name] == b[name]
  }

  predicate Neither(a: Element, b: Element, name: string) {
    !Has(a, name) && !Has(b, name)
  }

  predicate SameClass(a: Element, b: Element) {
    Shares(a, b, "klass") || Neither(a, b, "klass")
  }

  /** The same resource id; without one, the same class and description; without
      that, the same class and text; and without that, the same class. */
  predicate SameIdentity(a: Element, b: Element) {
    || Shares(a, b, "rid")
    || (&& Neither(a, b, "rid") && SameClass(a, b)
        && (|| Shares(a, b, "desc")
            || (Neither(a, b, "desc") && (Shares(a, b, "text") || Neither(a, b, "text")))))
  }

  /** No class name has a colon in it. */
  predicate PlainClass(e: Element) {
    Has(e, "klass") ==> ':' !in e["klass"].s
  }

  function Class(e: Element): string {
    if Has(e, "klass") then e["klass"].s else ""
  }

  lemma BaseOf(e: Element)
    ensures Base(e) ==
      if Has(e, "rid") then "rid:" + e["rid"].s
      else if Has(e, "desc") then "desc:" + (Class(e) + ":" + e["desc"].s)
      else if Has(e, "text") then "text:" + (Class(e) + ":" + e["text"].s)
      else "class:" + Class(e)
  {
    var k := Class(e);
    if Has(e, "desc") {
      Regrouped("desc:", k, e["desc"].s);
    }
    if Has(e, "text") {
      Regrouped("text:", k, e["text"].s);
    }
  }

  lemma Regrouped(tag: string, k: string, s: string)
    ensures tag + k + ":" + s == tag + (k + ":" + s)
  {
  }

  /** The part before the first colon and the part behind it are told apart. */
  lemma SplitAtColon(a: string, x: string, b: string, y: string)
    requires ':' !in a && ':' !in b
    ensures a + ":" + x == b + ":" + y <==> a == b && x == y
  {
    SplitOnceAt(a, ':', x);
    SplitOnceAt(b, ':', y);
  }

  lemma SameTag(tag: string, x: string, y: string)
    ensures tag + x == tag + y <==> x == y
  {
    assert (tag + x)[|tag|..] == x && (tag + y)[|tag|..] == y;
  }

  lemma TagsDiffer(x: string, y: string)
    ensures "rid:" + x != "desc:" + y && "rid:" + x != "text:" + y && "rid:" + x != "class:" + y
    ensures "desc:" + x != "text:" + y && "desc:" + x != "class:" + y && "text:" + x != "class:" + y
  {
    assert ("rid:" + x)[0] == 'r' && ("desc:" + x)[0] == 'd' && ("text:" + x)[0] == 't';
    assert ("desc:" + y)[0] == 'd' && ("text:" + y)[0] == 't' && ("class:" + y)[0] == 'c';
  }

  /** With colon-free classes, elements have one base key exactly when they are
      the same by their fields. */
  lemma SameBaseIff(a: Element, b: Element)
    requires PlainClass(a) && PlainClass(b)
    ensures Base(a) == Base(b) <==> SameIdentity(a, b)
  {
    hide Base;
    BaseOf(a);
    BaseOf(b);
    if Has(a, "rid") && Has(b, "rid") {
      SameTag("rid:", a["rid"].s, b["rid"].s);
    } else if !Has(a, "rid") && !Has(b, "rid") {
      WithoutId(a, b);
    } else {
      OnlyOneHasId(a, b);
    }
  }

  lemma OnlyOneHasId(a: Element, b: Element)
    requires Has(a, "rid") != Has(b, "rid")
    ensures Base(a) != Base(b)
  {
    hide Base;
    BaseOf(a);
    BaseOf(b);
    var x, y := if Has(a, "rid") then a else b, if Has(a, "rid") then b else a;
    TagsDiffer(x["rid"].s, Base(y)[if Has(y, "desc") || Has(y, "text") then 5 else 6..]);
  }

  lemma WithoutId(a: Element, b: Element)
    requires PlainClass(a) && PlainClass(b) && Neither(a, b, "rid")
    ensures Base(a) == Base(b) <==> SameIdentity(a, b)
  {
    hide Base;
    BaseOf(a);
    BaseOf(b);
    var k, l := Class(a), Class(b);
    assert k == l <==> SameClass(a, b);
    if Has(a, "desc") && Has(b, "desc") {
      SameTag("desc:", k + ":" + a["desc"].s, l + ":" + b["desc"].s);
      SplitAtColon(k, a["desc"].s, l, b["desc"].s);
    } else if Neither(a, b, "desc") && Has(a, "text") && Has(b, "text") {
      SameTag("text:", k + ":" + a["text"].s, l + ":" + b["text"].s);
      SplitAtColon(k, a["text"].s, l, b["text"].s);
    } else if Neither(a, b, "desc") && Neither(a, b, "text") {
      SameTag("class:", k, l);
    } else {
      var x, y := Base(a), Base(b);
      assert x[0] == if Has(a, "desc") then 'd' else if Has(a, "text") then 't' else 'c';
      assert y[0] == if Has(b, "desc") then 'd' else if Has(b, "text") then 't' else 'c';
    }
  }

  /** A colon in a class name can make two different elements one. */
  lemma ColonsBlurIdentity()
    ensures
      var a: Element := map["klass" := Str("A"), "desc" := Str("b:c")];
      var b: Element := map["klass" := Str("A:b"), "desc" := Str("c")];
      Base(a) == Base(b) && !SameIdentity(a, b)
  {
    hide Base;
    var a: Element := map["klass" := Str("A"), "desc" := Str("b:c")];
    var b: Element := map["klass" := Str("A:b"), "desc" := Str("c")];
    BaseOf(a);
    BaseOf(b);
    assert "A" + ":" + "b:c" == "A:b" + ":" + "c";
    assert a["klass"].s[..] == "A" && |b["klass"].s| == 3;
  }

  // ---- what the report says of single elements -------------------------------------------------

  lemma OneElement(e: Element)
    ensures Keys([e]) == [Base(e)] && Keyed([e]) == map[Base(e) := e] && KeyOfLast([e]) == Base(e)
  {
    hide Base;
    assert [e][..0] == [] && Count([], Base(e)) == 0;
  }

  /** An element that gave way to another one is reported as gone and the other as
      new; the same one is reported, as changed, exactly when a field that is kept
      differs. */
  lemma SingleDiff(a: Element, b: Element)
    requires PlainClass(a) && PlainClass(b)
    ensures !SameIdentity(a, b) ==> DiffOf([a], [b]) == Diff([b], [Summarised(Base(a), a)], [])
    ensures SameIdentity(a, b) ==>
      DiffOf([a], [b]) == Diff([], [], if Comparable(a) == Comparable(b) then [] else [Changed(Base(a), a, b)])
  {
    hide Base, SameIdentity, Comparable, Changed, Summarised, KeyOfLast, Keys, Keyed;
    SameBaseIff(a, b);
    OneElement(a);
    OneElement(b);
    NoElements(Keyed([a]), KeySet(Keys([b])));
    OneStep(Keyed([a]), b);
    OneGone(a, KeySet(Keys([b])));
    assert Base(a) in KeySet([Base(b)]) <==> Base(a) == Base(b);
  }

  lemma NoElements(known: map<string, Element>, kept: set<string>)
    ensures AddedTo(known, []) == [] && ChangedFrom(known, []) == [] && RemovedFrom([], kept) == []
  {
  }

  lemma OneStep(known: map<string, Element>, e: Element)
    ensures AddedTo(known, [e]) == if KeyOfLast([e]) in known then [] else [e]
    ensures ChangedFrom(known, [e])
      == if KeyOfLast([e]) in known && Comparable(known[KeyOfLast([e])]) != Comparable(e)
         then [Changed(KeyOfLast([e]), known[KeyOfLast([e])], e)] else []
  {
    hide Comparable, Changed, KeyOfLast;
    assert [e][..0] == [];
  }

  lemma OneGone(e: Element, kept: set<string>)
    ensures RemovedFrom([e], kept) == if KeyOfLast([e]) in kept then [] else [Summarised(KeyOfLast([e]), e)]
  {
    hide Summarised, KeyOfLast;
    assert [e][..0] == [];
  }

  /** Only the two handles that change from read to read are left out of a comparison. */
  lemma ComparableIff(a: Element, b: Element)
    ensures Comparable(a) == Comparable(b)
      <==> forall name: string :: name != "id" && name != "handle" ==>
             (name in a <==> name in b) && (name in a && name in b ==> a[name] == b[name])
  {
    var x, y := Comparable(a), Comparable(b);
    if x == y {
      forall name: string | name != "id" && name != "handle"
        ensures (name in a <==> name in b) && (name in a && name in b ==> a[name] == b[name])
      {
        assert name in a <==> name in x;
        assert name in b <==> name in y;
        assert name in a && name in b ==> a[name] == x[name] && b[name] == y[name];
      }
    }
  }
}
