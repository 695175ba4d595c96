/** A metaclass that refuses to create a class which leaves an abstract method
    of its bases unimplemented (2017/03/wolever/ezabc.py). A method is
    abstract when its source text contains "raise NotImplementedError". The
    check walks the class's method resolution order, remembering which names
    are implemented and, for each name still unimplemented when an abstract
    definition of it is met, the class that declared it. */
module EzAbc {
  import opened Wrappers

  /** Creating a class either yields the class or raises TypeError. */
  datatype Result<T> = Ok(value: T) | TypeError(message: string)

  /** One entry of a class's `__dict__`: its name, whether
      `inspect.isfunction` holds of it, and the text `inspect.getsource`
      returns for it, None when that raises IOError. */
  datatype Attr = Attr(name: string, isFunction: bool, source: Option<string>)

  /** A class as the check sees it: its `__name__` and its `__dict__`. */
  datatype ClassDef = ClassDef(name: string, attrs: seq<Attr>)

  const AbstractMarker: string := "raise NotImplementedError"

  /** Python's `pattern in text` on strings. */
  predicate Contains(text: string, pattern: string)
    decreases |text|
  {
    if |pattern| > |text| then false
    else if text[..|pattern|] == pattern then true
    else Contains(text[1..], pattern)
  }

  /** `pattern` is the slice of `text` that starts at `i`. */
  ghost predicate OccursAt(text: string, pattern: string, i: int)
  {
    0 <= i && i + |pattern| <= |text| && text[i..i + |pattern|] == pattern
  }

  /** `pattern` occurs in `text` exactly when some slice of `text` is it. */
  lemma {:induction false} ContainsIff(text: string, pattern: string)
    ensures Contains(text, pattern) <==> exists i :: OccursAt(text, pattern, i)
    decreases |text|
  {
    if |pattern| <= |text| && text[..|pattern|] != pattern {
      ContainsIff(text[1..], pattern);
      if Contains(text, pattern) {
        var i :| OccursAt(text[1..], pattern, i);
        assert text[i + 1..i + 1 + |pattern|] == text[1..][i..i + |pattern|];
        assert OccursAt(text, pattern, i + 1);
      }
      if i :| OccursAt(text, pattern, i) {
        assert i != 0;
        assert text[1..][i - 1..i - 1 + |pattern|] == text[i..i + |pattern|];
        assert OccursAt(text[1..], pattern, i - 1);
      }
    } else if |pattern| <= |text| {
      assert OccursAt(text, pattern, 0);
    }
  }

  /** `is_abstract_method`: the source can be fetched and contains the
      marker text somewhere. */
  predicate IsAbstractMethod(val: Attr)
  {
    val.source.Some? && Contains(val.source.value, AbstractMarker)
  }

  lemma IsAbstractMethodIff(val: Attr)
    ensures IsAbstractMethod(val) <==>
      val.source.Some? && exists i :: OccursAt(val.source.value, AbstractMarker, i)
  {
    if val.source.Some? {
      ContainsIff(val.source.value, AbstractMarker);
    }
  }

  /** The two local variables of `cls_get_missing_abstract_methods`, with
      the keys of `missing` also listed in the order they were first added. */
  datatype Scan = Scan(implemented: set<string>, missing: map<string, string>, order: seq<string>)

  const Start := Scan({}, map[], [])

  /** `order` lists every key of `missing` exactly once. */
  ghost predicate OrderListsMissing(st: Scan)
  {
    && (forall i, j :: 0 <= i < j < |st.order| ==> st.order[i] != st.order[j])
    && (forall n :: n in st.missing <==> n in st.order)
  }

  /** One attribute of the class `owner`; `own` says whether that class is
      the one being created. */
  function Step(st: Scan, owner: string, a: Attr, own: bool): (st': Scan)
    ensures OrderListsMissing(st) ==> OrderListsMissing(st')
    ensures st.implemented <= st'.implemented && st.missing.Keys <= st'.missing.Keys
  {
    if !a.isFunction then st
    else if !own && IsAbstractMethod(a) then
      if a.name in st.implemented then st
      else
        st.(missing := st.missing[a.name := owner],
            order := if a.name in st.missing then st.order else st.order + [a.name])
    else st.(implemented := st.implemented + {a.name})
  }

  /** The attributes of one class, in order. */
  function AttrsStep(st: Scan, owner: string, attrs: seq<Attr>, own: bool): (st': Scan)
    ensures OrderListsMissing(st) ==> OrderListsMissing(st')
    ensures st.implemented <= st'.implemented && st.missing.Keys <= st'.missing.Keys
    decreases |attrs|
  {
    if |attrs| == 0 then st
    else Step(AttrsStep(st, owner, attrs[..|attrs| - 1], own), owner, attrs[|attrs| - 1], own)
  }

  lemma AttrsStepNext(st: Scan, owner: string, attrs: seq<Attr>, j: nat, own: bool)
    requires j < |attrs|
    ensures AttrsStep(st, owner, attrs[..j + 1], own) == Step(AttrsStep(st, owner, attrs[..j], own), owner, attrs[j], own)
  {
    assert attrs[..j + 1][..j] == attrs[..j];
  }

  /** The scan after the first `k` classes of the MRO; the class being
      created is `mro[0]`. */
  function Walk(mro: seq<ClassDef>, k: nat): (st: Scan)
    requires k <= |mro|
    ensures OrderListsMissing(st)
  {
    if k == 0 then Start
    else AttrsStep(Walk(mro, k - 1), mro[k - 1].name, mro[k - 1].attrs, k - 1 == 0)
  }

  /** `"%s.%s" %(owner, name)` */
  function Qualified(owner: string, name: string): (q: string)
    ensures |q| == |owner| + 1 + |name|
    ensures q[..|owner|] == owner && q[|owner|] == '.' && q[|owner| + 1..] == name
  {
    owner + "." + name
  }

  /** A dot-free class name and the method name are recovered from their
      qualified name, so distinct missing entries give distinct lines. */
  lemma QualifiedInjective(owner: string, name: string, owner': string, name': string)
    requires '.' !in owner && '.' !in owner'
    requires Qualified(owner, name) == Qualified(owner', name')
    ensures owner == owner' && name == name'
  {
  }

  /** The returned list comprehension: one "Owner.name" per missing name. */
  function Report(st: Scan): (lines: seq<string>)
    requires OrderListsMissing(st)
    ensures |lines| == |st.missing|
  {
    OrderLength(st);
    seq(|st.order|, i requires 0 <= i < |st.order| => Qualified(st.missing[st.order[i]], st.order[i]))
  }

  /** Every missing name has its "Owner.name" line in the report. */
  lemma ReportCovers(st: Scan)
    requires OrderListsMissing(st)
    ensures var lines := Report(st);
      forall n :: n in st.missing ==> exists i :: 0 <= i < |lines| && lines[i] == Qualified(st.missing[n], n)
  {
    var lines := Report(st);
    forall n | n in st.missing ensures exists i :: 0 <= i < |lines| && lines[i] == Qualified(st.missing[n], n) {
      var i :| 0 <= i < |st.order| && st.order[i] == n;
      assert lines[i] == Qualified(st.missing[n], n);
    }
  }

  /** Every line of the report is the "Owner.name" line of a missing name;
      with `|Report(st)| == |st.missing|` there is one line per name. */
  lemma ReportOnlyMissing(st: Scan)
    requires OrderListsMissing(st)
    ensures var lines := Report(st);
      forall i :: 0 <= i < |lines| ==> exists n :: n in st.missing && lines[i] == Qualified(st.missing[n], n)
  {
    var lines := Report(st);
    forall i | 0 <= i < |lines| ensures exists n :: n in st.missing && lines[i] == Qualified(st.missing[n], n) {
      assert st.order[i] in st.missing;
    }
  }

  lemma OrderLength(st: Scan)
    requires OrderListsMissing(st)
    ensures |st.order| == |st.missing|
  {
    var keys := st.missing.Keys;
    assert keys == set i | 0 <= i < |st.order| :: st.order[i];
    DistinctCardinality(st.order);
  }

  lemma {:induction false} DistinctCardinality(s: seq<string>)
    requires forall i, j :: 0 <= i < j < |s| ==> s[i] != s[j]
    ensures |set i | 0 <= i < |s| :: s[i]| == |s|
    decreases |s|
  {
    if |s| > 0 {
      var front := s[..|s| - 1];
      DistinctCardinality(front);
      var a := set i | 0 <= i < |front| :: front[i];
      assert (set i | 0 <= i < |s| :: s[i]) == a + {s[|s| - 1]};
      assert s[|s| - 1] !in a;
    }
  }

  /** `cls_get_missing_abstract_methods(cls)`, given `cls.__mro__`. */
  method MissingAbstractMethods(mro: seq<ClassDef>) returns (missingMethods: seq<string>)
    ensures missingMethods == Report(Walk(mro, |mro|))
  {
    var implementedMethods: set<string> := {};
    var missingAbstractMethods: map<string, string> := map[];
    var order: seq<string> := [];
    for k := 0 to |mro|
      invariant Scan(implementedMethods, missingAbstractMethods, order) == Walk(mro, k)
    {
      var c := mro[k];
      for j := 0 to |c.attrs|
        invariant Scan(implementedMethods, missingAbstractMethods, order)
               == AttrsStep(Walk(mro, k), c.name, c.attrs[..j], k == 0)
      {
        var name, val := c.attrs[j].name, c.attrs[j];
        AttrsStepNext(Walk(mro, k), c.name, c.attrs, j, k == 0);
        if !val.isFunction {
          continue;
        }
        if k != 0 && IsAbstractMethod(val) {
          if name !in implementedMethods {
            if name !in missingAbstractMethods {
              order := order + [name];
            }
            missingAbstractMethods := missingAbstractMethods[name := c.name];
          }
          continue;
        }
        implementedMethods := implementedMethods + {name};
      }
      assert c.attrs[..|c.attrs|] == c.attrs;
    }
    missingMethods := [];
    for i := 0 to |order|
      invariant missingMethods == Report(Walk(mro, |mro|))[..i]
    {
      missingMethods := missingMethods + [Qualified(missingAbstractMethods[order[i]], order[i])];
    }
  }

  /** The total length of `parts`. */
  function TotalLength(parts: seq<string>): nat
  {
    if |parts| == 0 then 0 else |parts[0]| + TotalLength(parts[1..])
  }

  /** `", ".join(parts)`: the parts in order, `sep` between each two. */
  function Join(sep: string, parts: seq<string>): (joined: string)
    ensures |parts| == 0 ==> joined == ""
    ensures |parts| > 0 ==> |joined| == TotalLength(parts) + |sep| * (|parts| - 1)
    ensures |parts| > 0 ==> parts[0] <= joined
    ensures |parts| > 1 ==> parts[0] + sep <= joined
  {
    if |parts| == 0 then ""
    else if |parts| == 1 then parts[0]
    else parts[0] + sep + Join(sep, parts[1..])
  }

  function RefusalMessage(name: string, bases: seq<string>, missing: seq<string>): string
  {
    name + "(" + Join(", ", bases) + ") does not implement expected abstract methods: " + Join(", ", missing)
  }

  /** `ABCMeta.__new__`: the class `mro[0]`, with direct bases named `bases`,
      is created unless some abstract method is missing, in which case
      TypeError names the class, its bases and the missing methods. */
  method NewClass(mro: seq<ClassDef>, bases: seq<string>) returns (r: Result<ClassDef>)
    requires |mro| > 0
    ensures r.TypeError? <==> Walk(mro, |mro|).missing != map[]
    ensures r.Ok? ==> r.value == mro[0]
    ensures r.TypeError? ==> r.message == RefusalMessage(mro[0].name, bases, Report(Walk(mro, |mro|)))
  {
    var cls := mro[0];
    var missingMethods := MissingAbstractMethods(mro);
    if |missingMethods| > 0 {
      return TypeError(RefusalMessage(cls.name, bases, missingMethods));
    }
    return Ok(cls);
  }

  /** The attributes of `attrs` that are functions, in order. */
  function FunctionsOnly(attrs: seq<Attr>): (fs: seq<Attr>)
    ensures forall i :: 0 <= i < |fs| ==> fs[i].isFunction
    decreases |attrs|
  {
    if |attrs| == 0 then []
    else FunctionsOnly(attrs[..|attrs| - 1]) + (if attrs[|attrs| - 1].isFunction then [attrs[|attrs| - 1]] else [])
  }

  /** Every class with its non-function attributes removed. */
  function StripClasses(mro: seq<ClassDef>): (stripped: seq<ClassDef>)
    ensures |stripped| == |mro|
  {
    seq(|mro|, k requires 0 <= k < |mro| => ClassDef(mro[k].name, FunctionsOnly(mro[k].attrs)))
  }

  lemma {:induction false} FunctionsOnlyStep(st: Scan, owner: string, attrs: seq<Attr>, own: bool)
    ensures AttrsStep(st, owner, attrs, own) == AttrsStep(st, owner, FunctionsOnly(attrs), own)
    decreases |attrs|
  {
    if |attrs| > 0 {
      var front, a := attrs[..|attrs| - 1], attrs[|attrs| - 1];
      FunctionsOnlyStep(st, owner, front, own);
      if a.isFunction {
        var fs := FunctionsOnly(front) + [a];
        assert fs[..|fs| - 1] == FunctionsOnly(front);
      } else {
        assert FunctionsOnly(attrs) == FunctionsOnly(front);
      }
    }
  }

  /** Attributes that are not functions play no part in the check. */
  lemma {:induction false} NonFunctionsIgnored(mro: seq<ClassDef>, k: nat)
    requires k <= |mro|
    ensures Walk(mro, k) == Walk(StripClasses(mro), k)
  {
    if k > 0 {
      NonFunctionsIgnored(mro, k - 1);
      FunctionsOnlyStep(Walk(mro, k - 1), mro[k - 1].name, mro[k - 1].attrs, k - 1 == 0);
    }
  }

  /** A name is never dropped from `missing` or from `implemented`: a
      concrete definition met later in the MRO does not rescue a name. */
  lemma {:induction false} WalkGrows(mro: seq<ClassDef>, k: nat, k': nat)
    requires k <= k' <= |mro|
    ensures Walk(mro, k).implemented <= Walk(mro, k').implemented
    ensures Walk(mro, k).missing.Keys <= Walk(mro, k').missing.Keys
    decreases k' - k
  {
    if k < k' {
      WalkGrows(mro, k, k' - 1);
    }
  }

  /** Some function named `n` among `attrs` counts as an implementation:
      any function of the class being created, and elsewhere one whose
      source does not look abstract. */
  ghost predicate Implements(attrs: seq<Attr>, own: bool, n: string)
  {
    exists i :: 0 <= i < |attrs| && attrs[i].name == n && attrs[i].isFunction && (own || !IsAbstractMethod(attrs[i]))
  }

  /** A base class (not the one being created) has an abstract function `n`. */
  ghost predicate DeclaresAbstract(attrs: seq<Attr>, own: bool, n: string)
  {
    exists i :: 0 <= i < |attrs| && attrs[i].name == n && attrs[i].isFunction && !own && IsAbstractMethod(attrs[i])
  }

  /** The keys of a `__dict__` are distinct. */
  ghost predicate UniqueNames(attrs: seq<Attr>)
  {
    forall i, j :: 0 <= i < j < |attrs| ==> attrs[i].name != attrs[j].name
  }

  ghost predicate WellFormed(mro: seq<ClassDef>)
  {
    forall k :: 0 <= k < |mro| ==> UniqueNames(mro[k].attrs)
  }

  /** Some class before position `k` of the MRO implements `n`. */
  ghost predicate ImplementedBefore(mro: seq<ClassDef>, k: nat, n: string)
    requires k <= |mro|
  {
    exists j :: 0 <= j < k && Implements(mro[j].attrs, j == 0, n)
  }

  /** Class `j` of the MRO declares `n` abstract while no earlier class
      implements it. */
  ghost predicate Declared(mro: seq<ClassDef>, j: nat, n: string)
    requires j < |mro|
  {
    DeclaresAbstract(mro[j].attrs, j == 0, n) && !ImplementedBefore(mro, j, n)
  }

  /** The effect of one attribute on the entries for one name. */
  lemma StepEffect(st: Scan, owner: string, a: Attr, own: bool, n: string)
    ensures var st', hit, abs := Step(st, owner, a, own), a.name == n && a.isFunction, !own && IsAbstractMethod(a);
      && (n in st'.implemented <==> n in st.implemented || (hit && !abs))
      && (n in st'.missing <==> n in st.missing || (hit && abs && n !in st.implemented))
      && (n in st'.missing ==> st'.missing[n] == if hit && abs && n !in st.implemented then owner else st.missing[n])
  {
  }

  /** The effect of one class's dictionary on the entries for one name. */
  lemma {:induction false} ClassEffect(st: Scan, owner: string, attrs: seq<Attr>, own: bool, n: string)
    requires UniqueNames(attrs)
    ensures var st', decl := AttrsStep(st, owner, attrs, own), DeclaresAbstract(attrs, own, n);
      && (n in st'.implemented <==> n in st.implemented || Implements(attrs, own, n))
      && (n in st'.missing <==> n in st.missing || (decl && n !in st.implemented))
      && (n in st'.missing ==> st'.missing[n] == if decl && n !in st.implemented then owner else st.missing[n])
    decreases |attrs|
  {
    if |attrs| > 0 {
      var front, a := attrs[..|attrs| - 1], attrs[|attrs| - 1];
      var mid := AttrsStep(st, owner, front, own);
      assert UniqueNames(front);
      ClassEffect(st, owner, front, own, n);
      StepEffect(mid, owner, a, own, n);
      LastAttrEffect(attrs, own, n);
    }
  }

  /** How the last attribute of a dictionary with distinct names decides
      `Implements` and `DeclaresAbstract`; when it is named `n`, nothing
      before it is. */
  lemma LastAttrEffect(attrs: seq<Attr>, own: bool, n: string)
    requires UniqueNames(attrs) && |attrs| > 0
    ensures var front, a := attrs[..|attrs| - 1], attrs[|attrs| - 1];
      var hit, abs := a.name == n && a.isFunction, !own && IsAbstractMethod(a);
      && (hit ==> !Implements(front, own, n) && !DeclaresAbstract(front, own, n))
      && (Implements(attrs, own, n) <==> Implements(front, own, n) || (hit && !abs))
      && (DeclaresAbstract(attrs, own, n) <==> DeclaresAbstract(front, own, n) || (hit && abs))
  {
    var front, a := attrs[..|attrs| - 1], attrs[|attrs| - 1];
    assert forall i :: 0 <= i < |front| ==> front[i] == attrs[i];
  }

  lemma ImplementedBeforeNext(mro: seq<ClassDef>, k: nat, n: string)
    requires 0 < k <= |mro|
    ensures ImplementedBefore(mro, k, n) <==>
      ImplementedBefore(mro, k - 1, n) || Implements(mro[k - 1].attrs, k - 1 == 0, n)
  {
  }

  /** What the walk has recorded as implemented after `k` classes. */
  lemma {:induction false} WalkImplemented(mro: seq<ClassDef>, k: nat, n: string)
    requires WellFormed(mro) && k <= |mro|
    ensures n in Walk(mro, k).implemented <==> ImplementedBefore(mro, k, n)
  {
    if k > 0 {
      WalkImplemented(mro, k - 1, n);
      ClassEffect(Walk(mro, k - 1), mro[k - 1].name, mro[k - 1].attrs, k - 1 == 0, n);
      ImplementedBeforeNext(mro, k, n);
    }
  }

  /** How one more class changes the entry for `n`: it becomes missing when
      that class declares it abstract before any implementation, and that
      class becomes its owner. */
  lemma WalkStep(mro: seq<ClassDef>, k: nat, n: string)
    requires WellFormed(mro) && 0 < k <= |mro|
    ensures var prev, cur, last := Walk(mro, k - 1), Walk(mro, k), Declared(mro, k - 1, n);
      && (n in cur.missing <==> n in prev.missing || last)
      && (n in cur.missing ==> cur.missing[n] == if last then mro[k - 1].name else prev.missing[n])
  {
    var prev := Walk(mro, k - 1);
    assert n in prev.implemented <==> ImplementedBefore(mro, k - 1, n) by {
      WalkImplemented(mro, k - 1, n);
    }
    ClassEffect(prev, mro[k - 1].name, mro[k - 1].attrs, k - 1 == 0, n);
  }

  /** What the walk has recorded as missing after `k` classes: `n` is
      missing when some class so far declared it abstract before any class
      implemented it. */
  lemma {:induction false} WalkMissing(mro: seq<ClassDef>, k: nat, n: string)
    requires WellFormed(mro) && k <= |mro|
    ensures n in Walk(mro, k).missing <==> exists j :: 0 <= j < k && Declared(mro, j, n)
  {
    if k > 0 {
      WalkMissing(mro, k - 1, n);
      WalkStep(mro, k, n);
      if j :| 0 <= j < k && Declared(mro, j, n) {
        if j < k - 1 {
          assert exists j :: 0 <= j < k - 1 && Declared(mro, j, n);
        }
      }
    }
  }

  /** The last class among the first `k` that declares `n` abstract before
      any implementation, or -1 when there is none. */
  ghost function LastDeclared(mro: seq<ClassDef>, k: nat, n: string): int
    requires k <= |mro|
  {
    if k == 0 then -1
    else if Declared(mro, k - 1, n) then k - 1
    else LastDeclared(mro, k - 1, n)
  }

  lemma {:induction false} LastDeclaredIsLast(mro: seq<ClassDef>, k: nat, n: string)
    requires k <= |mro|
    ensures var j := LastDeclared(mro, k, n);
      -1 <= j < k && (j >= 0 ==> Declared(mro, j, n)) && forall j' :: j < j' < k ==> !Declared(mro, j', n)
  {
    if k > 0 && !Declared(mro, k - 1, n) {
      LastDeclaredIsLast(mro, k - 1, n);
    }
  }

  /** The owner recorded for a missing name is the class `LastDeclared`
      finds. */
  lemma {:induction false} WalkOwnerIsLast(mro: seq<ClassDef>, k: nat, n: string)
    requires WellFormed(mro) && k <= |mro|
    requires n in Walk(mro, k).missing
    ensures 0 <= LastDeclared(mro, k, n) < k && Walk(mro, k).missing[n] == mro[LastDeclared(mro, k, n)].name
  {
    assert k > 0;
    WalkStep(mro, k, n);
    if !Declared(mro, k - 1, n) {
      WalkOwnerIsLast(mro, k - 1, n);
    }
  }

  /** The owner recorded for a missing name is the last class so far that
      declared it abstract before any class implemented it. */
  lemma WalkOwner(mro: seq<ClassDef>, k: nat, n: string)
    requires WellFormed(mro) && k <= |mro|
    requires n in Walk(mro, k).missing
    ensures exists j :: && 0 <= j < k && Declared(mro, j, n) && Walk(mro, k).missing[n] == mro[j].name
                        && forall j' :: j < j' < k ==> !Declared(mro, j', n)
  {
    WalkOwnerIsLast(mro, k, n);
    LastDeclaredIsLast(mro, k, n);
    var j := LastDeclared(mro, k, n);
    assert Declared(mro, j, n) && Walk(mro, k).missing[n] == mro[j].name;
  }

  /** A name is reported missing exactly when some base class in the MRO
      declares it abstract and no class before that one implements it. */
  lemma MissingIff(mro: seq<ClassDef>, n: string)
    requires WellFormed(mro)
    ensures n in Walk(mro, |mro|).missing <==> exists j :: 0 <= j < |mro| && Declared(mro, j, n)
  {
    WalkMissing(mro, |mro|, n);
  }

  /** The owner reported for a missing name is the last class that declared
      it abstract before any class implemented it. */
  lemma MissingOwner(mro: seq<ClassDef>, n: string)
    requires WellFormed(mro)
    requires n in Walk(mro, |mro|).missing
    ensures exists j :: 0 <= j < |mro| && Declared(mro, j, n) && Walk(mro, |mro|).missing[n] == mro[j].name
                        && forall j' :: j < j' < |mro| ==> !Declared(mro, j', n)
  {
    WalkOwner(mro, |mro|, n);
  }

  /** A function of the class being created is never missing, even when its
      body raises NotImplementedError: an abstract base is accepted. */
  lemma OwnMethodsNeverMissing(mro: seq<ClassDef>, n: string)
    requires WellFormed(mro) && |mro| > 0
    requires exists i :: 0 <= i < |mro[0].attrs| && mro[0].attrs[i].name == n && mro[0].attrs[i].isFunction
    ensures n !in Walk(mro, |mro|).missing
  {
    assert Implements(mro[0].attrs, true, n);
    MissingIff(mro, n);
    forall j | 0 <= j < |mro| ensures !Declared(mro, j, n) {
      if j > 0 {
        assert ImplementedBefore(mro, j, n);
      }
    }
  }

  /** A class whose MRO holds only itself is always created. */
  lemma LoneClassAccepted(mro: seq<ClassDef>)
    requires WellFormed(mro) && |mro| == 1
    ensures Walk(mro, 1).missing == map[]
  {
    forall n | n in Walk(mro, 1).missing ensures false {
      MissingIff(mro, n);
    }
  }

  // The classes of the example in the metaclass's documentation, with each
  // method's source text cut down to its body.

  const ObjectClass := ClassDef("object", [])

  const BaseClass := ClassDef("BaseClass", [
    Attr("__metaclass__", false, None),
    Attr("concrete_method", true, Some("return 42")),
    Attr("abstract_method", true, Some(AbstractMarker + "()"))])

  const ConcreteClass := ClassDef("ConcreteClass", [Attr("abstract_method", true, Some("return 16"))])

  const InvalidConcreteClass := ClassDef("InvalidConcreteClass", [])

  const Mixin := ClassDef("Mixin", [Attr("abstract_method", true, Some("return 7"))])

  const ValidConcreteClassWithMixin := ClassDef("ValidCocreteClassWithMixin", [])

  lemma ExampleMethodKinds()
    ensures IsAbstractMethod(BaseClass.attrs[2])
    ensures !IsAbstractMethod(BaseClass.attrs[1])
    ensures !IsAbstractMethod(ConcreteClass.attrs[0])
    ensures !IsAbstractMethod(Mixin.attrs[0])
  {
    assert (AbstractMarker + "()")[..|AbstractMarker|] == AbstractMarker;
  }

  /** Only `abstract_method` of BaseClass is abstract. */
  lemma BaseClassDeclares(n: string)
    ensures DeclaresAbstract(BaseClass.attrs, false, n) <==> n == "abstract_method"
  {
    ExampleMethodKinds();
    if n == "abstract_method" {
      assert BaseClass.attrs[2].name == n;
    }
  }

  lemma ExampleWellFormed(mro: seq<ClassDef>)
    requires forall k :: 0 <= k < |mro| ==> mro[k] in {ObjectClass, BaseClass, ConcreteClass, InvalidConcreteClass, Mixin, ValidConcreteClassWithMixin}
    ensures WellFormed(mro)
  {
    assert "concrete_method"[0] != "abstract_method"[0];
  }

  /** The base class declares its own abstract method and is created. */
  lemma ExampleBaseAccepted()
    ensures Walk([BaseClass, ObjectClass], 2).missing == map[]
  {
    var mro := [BaseClass, ObjectClass];
    ExampleWellFormed(mro);
    forall n | n in Walk(mro, 2).missing ensures false {
      MissingIff(mro, n);
    }
  }

  /** Implementing the abstract method in the subclass satisfies the check. */
  lemma ExampleConcreteAccepted()
    ensures Walk([ConcreteClass, BaseClass, ObjectClass], 3).missing == map[]
  {
    var mro := [ConcreteClass, BaseClass, ObjectClass];
    ExampleWellFormed(mro);
    assert Implements(mro[0].attrs, true, "abstract_method") by {
      assert mro[0].attrs[0].name == "abstract_method";
    }
    assert ImplementedBefore(mro, 1, "abstract_method");
    forall n | n in Walk(mro, 3).missing ensures false {
      MissingIff(mro, n);
      BaseClassDeclares(n);
    }
  }

  /** Leaving it out is refused with TypeError naming the owner. */
  lemma ExampleInvalidRefused()
    ensures Walk([InvalidConcreteClass, BaseClass, ObjectClass], 3).missing.Keys == {"abstract_method"}
    ensures Walk([InvalidConcreteClass, BaseClass, ObjectClass], 3).missing["abstract_method"] == "BaseClass"
    ensures Report(Walk([InvalidConcreteClass, BaseClass, ObjectClass], 3)) == [Qualified(BaseClass.name, "abstract_method")]
  {
    var mro := [InvalidConcreteClass, BaseClass, ObjectClass];
    ExampleWellFormed(mro);
    OnlyBaseDeclares(mro);
    OnlyBaseReported(mro);
  }

  /** The MROs of the refused examples: nothing at position 0, BaseClass at
      position 1, and after it only classes without abstract methods. */
  ghost predicate BaseSecond(mro: seq<ClassDef>)
  {
    && WellFormed(mro) && |mro| >= 2 && mro[0].attrs == [] && mro[1] == BaseClass
    && forall j :: 2 <= j < |mro| ==> mro[j] in {ObjectClass, Mixin}
  }

  lemma BaseSecondDeclared(mro: seq<ClassDef>, n: string)
    requires BaseSecond(mro)
    ensures (exists j :: 0 <= j < |mro| && Declared(mro, j, n)) <==> n == "abstract_method"
    ensures n == "abstract_method" ==> forall j :: 0 <= j < |mro| && Declared(mro, j, n) ==> j == 1
  {
    ExampleMethodKinds();
    BaseClassDeclares(n);
    assert !ImplementedBefore(mro, 1, n);
    forall j | 0 <= j < |mro| && j != 1 ensures !DeclaresAbstract(mro[j].attrs, j == 0, n) {
      if j >= 2 {
        assert mro[j] in {ObjectClass, Mixin};
      }
    }
    if n == "abstract_method" {
      assert Declared(mro, 1, n);
    }
  }

  /** With BaseClass at position 1 and no implementation at position 0, the
      only missing name is `abstract_method`, owned by BaseClass. */
  lemma OnlyBaseDeclares(mro: seq<ClassDef>)
    requires BaseSecond(mro)
    ensures Walk(mro, |mro|).missing.Keys == {"abstract_method"}
    ensures Walk(mro, |mro|).missing["abstract_method"] == "BaseClass"
  {
    var st := Walk(mro, |mro|);
    var name := "abstract_method";
    forall n ensures n in st.missing <==> n == name {
      MissingIff(mro, n);
      BaseSecondDeclared(mro, n);
    }
    BaseSecondDeclared(mro, name);
    MissingOwner(mro, name);
  }

  lemma OnlyBaseReported(mro: seq<ClassDef>)
    requires BaseSecond(mro)
    ensures Report(Walk(mro, |mro|)) == [Qualified(BaseClass.name, "abstract_method")]
  {
    OnlyBaseDeclares(mro);
    ReportOfOne(Walk(mro, |mro|), "abstract_method");
  }

  /** With a single missing name the report is its one line. */
  lemma ReportOfOne(st: Scan, name: string)
    requires OrderListsMissing(st) && st.missing.Keys == {name}
    ensures Report(st) == [Qualified(st.missing[name], name)]
  {
    assert |st.missing| == |st.missing.Keys| == 1;
    OrderLength(st);
    assert st.order == [name] by {
      assert |st.order| == 1 && st.order[0] in st.missing;
    }
  }

  /** A mixin listed before the base supplies the implementation. */
  lemma ExampleMixinAccepted()
    ensures Walk([ValidConcreteClassWithMixin, Mixin, BaseClass, ObjectClass], 4).missing == map[]
  {
    var mro := [ValidConcreteClassWithMixin, Mixin, BaseClass, ObjectClass];
    ExampleWellFormed(mro);
    ExampleMethodKinds();
    assert Implements(mro[1].attrs, false, "abstract_method") by {
      assert mro[1].attrs[0].name == "abstract_method";
    }
    assert ImplementedBefore(mro, 2, "abstract_method");
    forall n | n in Walk(mro, 4).missing ensures false {
      MissingIff(mro, n);
      BaseClassDeclares(n);
    }
  }

  /** Listed after the base, the same mixin comes too late in the MRO. */
  lemma ExampleLateMixinRefused()
    ensures Walk([ValidConcreteClassWithMixin, BaseClass, Mixin, ObjectClass], 4).missing.Keys == {"abstract_method"}
    ensures Walk([ValidConcreteClassWithMixin, BaseClass, Mixin, ObjectClass], 4).missing["abstract_method"] == "BaseClass"
  {
    var mro := [ValidConcreteClassWithMixin, BaseClass, Mixin, ObjectClass];
    ExampleWellFormed(mro);
    OnlyBaseDeclares(mro);
  }
}
