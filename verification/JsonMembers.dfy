/** Looking into JSON objects by name. */
module JsonMembers {
  import opened Utf8
  import opened CanonicalJson

  /** An object with exactly these members. */
  predicate Names(v: Value, names: set<string>) {
    v.Object? && v.members.Keys == names
  }

  predicate Holds(v: Value, name: string, content: Value) {
    v.Object? && name in v.members && v.members[name] == content
  }

  predicate Lacks(v: Value, name: string) {
    v.Object? && name !in v.members
  }

  function At(v: Value, name: string): (r: Value) {
    if v.Object? && name in v.members then v.members[name] else Null
  }

  /** An array of these texts. */
  ghost predicate SaysTexts(v: Value, texts: seq<string>) {
    v.Array? && |v.items| == |texts| && forall i :: 0 <= i < |texts| ==> v.items[i] == String(texts[i])
  }

  /** A text under this name, or nothing. */
  ghost predicate SaysOptional(v: Value, name: string, text: Option<string>) {
    if text.Some? then Holds(v, name, String(text.value)) else Lacks(v, name)
  }

  // ----- Objects put together -----

  /** The larger map has everything the part has. */
  ghost predicate Extends(whole: map<string, Value>, part: map<string, Value>) {
    forall name :: name in part ==> name in whole && whole[name] == part[name]
  }

  lemma StillHolds(whole: map<string, Value>, part: map<string, Value>, name: string)
    requires Extends(whole, part) && name in part
    ensures Holds(Object(whole), name, part[name]) && At(Object(whole), name) == part[name]
  {
  }

  lemma MergeExtends(a: map<string, Value>, b: map<string, Value>)
    requires a.Keys !! b.Keys
    ensures Extends(a + b, a) && Extends(a + b, b) && (a + b).Keys == a.Keys + b.Keys
  {
  }

  lemma ExtendsFurther(whole: map<string, Value>, middle: map<string, Value>, part: map<string, Value>)
    requires Extends(whole, middle) && Extends(middle, part)
    ensures Extends(whole, part)
  {
  }

  /** Nothing is overwritten where no name occurs twice. */
  lemma PartsOfSix(a: map<string, Value>, b: map<string, Value>, c: map<string, Value>, d: map<string, Value>,
                   e: map<string, Value>, f: map<string, Value>)
    requires a.Keys !! b.Keys && a.Keys + b.Keys !! c.Keys && a.Keys + b.Keys + c.Keys !! d.Keys
    requires a.Keys + b.Keys + c.Keys + d.Keys !! e.Keys && a.Keys + b.Keys + c.Keys + d.Keys + e.Keys !! f.Keys
    ensures var m := a + b + c + d + e + f;
            && Extends(m, a) && Extends(m, b) && Extends(m, c) && Extends(m, d) && Extends(m, e) && Extends(m, f)
            && m.Keys == a.Keys + b.Keys + c.Keys + d.Keys + e.Keys + f.Keys
  {
    hide Extends;
    MergeExtends(a, b);
    PartsOfThree(a + b, c, d);
    PartsOfThree(a + b + c + d, e, f);
    var m := a + b + c + d + e + f;
    ExtendsFurther(a + b + c + d, a + b, a);
    ExtendsFurther(a + b + c + d, a + b, b);
    ExtendsFurther(m, a + b + c + d, a);
    ExtendsFurther(m, a + b + c + d, b);
    ExtendsFurther(m, a + b + c + d, c);
    ExtendsFurther(m, a + b + c + d, d);
  }

  lemma PartsOfThree(a: map<string, Value>, b: map<string, Value>, c: map<string, Value>)
    requires a.Keys !! b.Keys && a.Keys + b.Keys !! c.Keys
    ensures var m := a + b + c; Extends(m, a) && Extends(m, b) && Extends(m, c) && m.Keys == a.Keys + b.Keys + c.Keys
  {
    hide Extends;
    MergeExtends(a, b);
    MergeExtends(a + b, c);
    ExtendsFurther(a + b + c, a + b, a);
    ExtendsFurther(a + b + c, a + b, b);
  }

  // ----- Parts of an object -----

  /** Under these names two objects say the same. */
  ghost predicate Agrees(v: Value, w: Value, names: set<string>) {
    && v.Object? && w.Object?
    && forall name :: name in names ==> (name in v.members <==> name in w.members) && At(v, name) == At(w, name)
  }

  lemma SameAt(v: Value, w: Value, names: set<string>, name: string)
    requires Agrees(v, w, names) && name in names
    ensures At(v, name) == At(w, name) && (Lacks(v, name) <==> Lacks(w, name))
    ensures forall content :: Holds(v, name, content) <==> Holds(w, name, content)
  {
  }

  /** Each of two parts that share no name says in the whole what it says alone. */
  lemma MergeAgrees(a: map<string, Value>, b: map<string, Value>, names: set<string>, others: set<string>)
    requires a.Keys <= names && b.Keys <= others && names !! others
    ensures Agrees(Object(a), Object(a + b), names) && Agrees(Object(b), Object(a + b), others)
    ensures (a + b).Keys <= names + others
  {
  }

  lemma AgreesFurther(u: Value, v: Value, w: Value, names: set<string>, more: set<string>)
    requires Agrees(u, v, names) && Agrees(v, w, more) && names <= more
    ensures Agrees(u, w, names)
  {
  }

  lemma DisjointKeys(a: map<string, Value>, b: map<string, Value>, names: set<string>, others: set<string>)
    requires a.Keys <= names && b.Keys <= others && names !! others
    ensures a.Keys !! b.Keys && a.Keys + b.Keys <= names + others
  {
  }

  /** Three parts with names of their own. */
  lemma ThreeParts(a: map<string, Value>, b: map<string, Value>, c: map<string, Value>,
                   first: set<string>, second: set<string>, third: set<string>)
    requires a.Keys <= first && b.Keys <= second && c.Keys <= third
    requires first !! second && first !! third && second !! third
    ensures var m := a + b + c;
            && Agrees(Object(a), Object(m), first) && Agrees(Object(b), Object(m), second)
            && Agrees(Object(c), Object(m), third) && Extends(m, b) && Extends(m, c)
            && m.Keys <= first + second + third
  {
    hide Extends, Agrees;
    MergeAgrees(a, b, first, second);
    MergeAgrees(a + b, c, first + second, third);
    AgreesFurther(Object(a), Object(a + b), Object(a + b + c), first, first + second);
    AgreesFurther(Object(b), Object(a + b), Object(a + b + c), second, first + second);
    DisjointKeys(a, b, first, second);
    DisjointKeys(a + b, c, first + second, third);
    PartsOfThree(a, b, c);
  }
}
