/** The configuration object as a map from attribute names to values: the
    comparison of a loaded configuration with the current one, and the
    random draw of the hyper-parameters of a trial (`randomize_hyper`). */
module Config {
  import opened Wrappers

  /** A bound of a hyper-parameter range: a Python `int` or a `float`. */
  datatype Bound = IntB(i: int) | RealB(r: real)

  /** An entry of `train_hypers`: the attribute to draw and its range. */
  datatype Hyper = Hyper(name: string, lo: Bound, hi: Bound)

  /** The attribute values a configuration holds. */
  datatype Value =
    | IntV(i: int)
    | RealV(r: real)
    | BoolV(b: bool)
    | StrV(s: string)
    | NoneV
    | HypersV(hs: seq<Hyper>)

  /** A configuration object's attribute dictionary. */
  type Fields = map<string, Value>

  // ---------------------------------------------------------------------
  // Configuration diff
  // ---------------------------------------------------------------------

  /** The number a value stands for in a Python comparison: an `int` or a
      `float` its value, a `bool` 1 or 0; other values are not numbers. */
  function NumberOf(v: Value): (n: Option<real>)
    ensures n.Some? <==> v.IntV? || v.RealV? || v.BoolV?
  {
    match v
    case IntV(i) => Some(i as real)
    case RealV(r) => Some(r)
    case BoolV(b) => Some(if b then 1.0 else 0.0)
    case _ => None
  }

  /** Python's `==` on two hyper-parameter entries: same attribute name and
      numerically equal bounds. */
  predicate HyperEq(h: Hyper, h': Hyper)
  {
    h.name == h'.name && AsReal(h.lo) == AsReal(h'.lo) && AsReal(h.hi) == AsReal(h'.hi)
  }

  /** Python's `==` on attribute values: numbers (ints, floats and bools)
      compare by value, so `10 == 10.0` and `True == 1`; strings, `None` and
      hyper-parameter lists compare structurally, lists entry by entry; values
      of different kinds otherwise differ. */
  predicate PyEq(v: Value, w: Value)
  {
    if NumberOf(v).Some? || NumberOf(w).Some? then NumberOf(v) == NumberOf(w)
    else match (v, w)
      case (StrV(s), StrV(s')) => s == s'
      case (NoneV, NoneV) => true
      case (HypersV(hs), HypersV(hs')) =>
        |hs| == |hs'| && forall i :: 0 <= i < |hs| ==> HyperEq(hs[i], hs'[i])
      case _ => false
  }

  /** Python's `==` is an equivalence on attribute values that holds between
      equal values, and between two integers or two strings only when they
      are equal. */
  lemma PyEqIsEquivalence(u: Value, v: Value, w: Value)
    ensures PyEq(v, v)
    ensures PyEq(v, w) ==> PyEq(w, v)
    ensures PyEq(u, v) && PyEq(v, w) ==> PyEq(u, w)
    ensures (v.IntV? && w.IntV?) || v.StrV? || v.NoneV? ==> (PyEq(v, w) <==> v == w)
  {
  }

  /** Python's `!=` on two attribute dictionaries: the same keys, and
      values equal under Python's `==` at every key. */
  predicate SameDict(cur: Fields, saved: Fields)
  {
    cur.Keys == saved.Keys && forall a :: a in cur ==> PyEq(cur[a], saved[a])
  }

  /** A line of the report printed when a loaded configuration differs from
      the current one. */
  datatype DiffEntry =
    | Changed(attr: string, current: Value, saved: Value)
    | NotInSaved(attr: string)
    | NotInCurrent(attr: string)

  /** The report lines for the current attributes `cur` against the saved
      ones `saved`: nothing when the two dictionaries compare equal;
      otherwise a line per attribute in both whose values compare unequal,
      per attribute only in the current one and per attribute only in the
      saved one.  The order of the lines is that of dictionary iteration,
      so the report is a set. */
  function ConfigDiff(cur: Fields, saved: Fields): (d: set<DiffEntry>)
    ensures forall a, v, w :: Changed(a, v, w) in d ==>
              a in cur && a in saved && cur[a] == v && saved[a] == w && !PyEq(v, w)
    ensures forall a :: NotInSaved(a) in d ==> a in cur && a !in saved
    ensures forall a :: NotInCurrent(a) in d ==> a in saved && a !in cur
  {
    if SameDict(cur, saved) then {}
    else ChangedLines(cur, saved) + MissingLines(cur, saved) + ExtraLines(cur, saved)
  }

  /** A line per attribute in both dictionaries whose values compare
      unequal. */
  function ChangedLines(cur: Fields, saved: Fields): (d: set<DiffEntry>)
    ensures forall e :: e in d ==> e.Changed? && e.attr in cur && e.attr in saved
                                   && cur[e.attr] == e.current && saved[e.attr] == e.saved
                                   && !PyEq(e.current, e.saved)
  {
    set a | a in cur && a in saved && !PyEq(cur[a], saved[a]) :: Changed(a, cur[a], saved[a])
  }

  /** A line per attribute only in the current dictionary. */
  function MissingLines(cur: Fields, saved: Fields): (d: set<DiffEntry>)
    ensures forall e :: e in d ==> e.NotInSaved? && e.attr in cur && e.attr !in saved
  {
    set a | a in cur && a !in saved :: NotInSaved(a)
  }

  /** A line per attribute only in the saved dictionary. */
  function ExtraLines(cur: Fields, saved: Fields): (d: set<DiffEntry>)
    ensures forall e :: e in d ==> e.NotInCurrent? && e.attr in saved && e.attr !in cur
  {
    set a | a in saved && a !in cur :: NotInCurrent(a)
  }

  /** The report is empty exactly when the dictionaries compare equal (in
      particular when they are identical), and otherwise names every
      difference. */
  lemma DiffEmptyIffEqual(cur: Fields, saved: Fields)
    ensures ConfigDiff(cur, saved) == {} <==> SameDict(cur, saved)
    ensures cur == saved ==> ConfigDiff(cur, saved) == {}
    ensures !SameDict(cur, saved) ==>
              && (forall a :: a in cur && a in saved && !PyEq(cur[a], saved[a]) ==>
                    Changed(a, cur[a], saved[a]) in ConfigDiff(cur, saved))
              && (forall a :: a in cur && a !in saved ==> NotInSaved(a) in ConfigDiff(cur, saved))
              && (forall a :: a in saved && a !in cur ==> NotInCurrent(a) in ConfigDiff(cur, saved))
  {
    var d := ConfigDiff(cur, saved);
    if !SameDict(cur, saved) {
      if cur.Keys != saved.Keys {
        if a :| a in cur && a !in saved {
          assert NotInSaved(a) in d;
        } else {
          var a :| a in saved && a !in cur;
          assert NotInCurrent(a) in d;
        }
      } else {
        var a :| a in cur && !PyEq(cur[a], saved[a]);
        assert Changed(a, cur[a], saved[a]) in d;
      }
    }
    if cur == saved {
      forall a | a in cur
        ensures PyEq(cur[a], saved[a])
      {
        PyEqIsEquivalence(cur[a], cur[a], cur[a]);
      }
    }
  }

  /** A configuration saved with an integer threshold and loaded into one
      holding the same threshold as a float is reported as unchanged. */
  lemma IntFloatIsNoDifference()
    ensures ConfigDiff(map["train_cancel_validthresh" := RealV(10.0)],
                       map["train_cancel_validthresh" := IntV(10)]) == {}
  {
    var cur, saved := map["train_cancel_validthresh" := RealV(10.0)], map["train_cancel_validthresh" := IntV(10)];
    assert PyEq(cur["train_cancel_validthresh"], saved["train_cancel_validthresh"]);
  }

  /** The line for a changed attribute, with its roles swapped. */
  function Swap(e: DiffEntry): DiffEntry
  {
    match e
    case Changed(a, v, w) => Changed(a, w, v)
    case NotInSaved(a) => NotInCurrent(a)
    case NotInCurrent(a) => NotInSaved(a)
  }

  /** Comparing the other way round reports the same differences with the
      roles of the two configurations swapped. */
  lemma DiffSymmetric(cur: Fields, saved: Fields)
    ensures forall e :: e in ConfigDiff(saved, cur) <==> Swap(e) in ConfigDiff(cur, saved)
  {
    assert SameDict(cur, saved) <==> SameDict(saved, cur) by {
      forall a | a in cur && a in saved
        ensures PyEq(cur[a], saved[a]) <==> PyEq(saved[a], cur[a])
      {
        PyEqIsEquivalence(cur[a], cur[a], saved[a]);
        PyEqIsEquivalence(cur[a], saved[a], cur[a]);
      }
    }
    forall e
      ensures e in ConfigDiff(saved, cur) <==> Swap(e) in ConfigDiff(cur, saved)
    {
      match e
      case Changed(a, v, w) =>
        PyEqIsEquivalence(v, v, w);
        PyEqIsEquivalence(v, w, v);
      case NotInSaved(a) =>
      case NotInCurrent(a) =>
    }
  }

  // ---------------------------------------------------------------------
  // Hyper-parameter randomisation
  // ---------------------------------------------------------------------

  /** A uniform sample of [0, 1). */
  type Unit = u: real | 0.0 <= u < 1.0 witness 0.0

  /** The random numbers behind one call of numpy's `randint` or `uniform`:
      `n` picks the integer, `u` the real. */
  datatype RawDraw = RawDraw(n: nat, u: Unit)

  /** The global random stream as seen by one randomisation: the raw draw
      used for the `i`-th hyper-parameter. */
  type Rng = nat -> RawDraw

  /** An integer draw is used exactly when both bounds are integers. */
  predicate IsIntRange(h: Hyper)
  {
    h.lo.IntB? && h.hi.IntB?
  }

  /** `randint(lo, hi)` refuses an empty range with a `ValueError`. */
  predicate EmptyIntRange(h: Hyper)
  {
    IsIntRange(h) && h.lo.i >= h.hi.i
  }

  function AsReal(b: Bound): real
  {
    match b
    case IntB(i) => i as real
    case RealB(r) => r
  }

  function Min(a: real, b: real): real { if a <= b then a else b }

  function Max(a: real, b: real): real { if a <= b then b else a }

  lemma MulNonneg(a: real, b: real)
    requires a >= 0.0 && b >= 0.0
    ensures a * b >= 0.0
  {
  }

  lemma ScaledBetween(lo: real, hi: real, u: Unit)
    ensures Min(lo, hi) <= lo + u * (hi - lo) <= Max(lo, hi)
  {
    if lo <= hi {
      MulNonneg(u, hi - lo);
      MulNonneg(1.0 - u, hi - lo);
      assert (1.0 - u) * (hi - lo) == (hi - lo) - u * (hi - lo);
    } else {
      MulNonneg(u, lo - hi);
      MulNonneg(1.0 - u, lo - hi);
      assert (1.0 - u) * (lo - hi) == (lo - hi) - u * (lo - hi);
      assert u * (hi - lo) == -(u * (lo - hi));
    }
  }

  /** The value drawn for `h`: `randint(lo, hi)` (lo included, hi excluded)
      when both bounds are integers, `uniform(lo, hi)` otherwise. */
  function Draw(h: Hyper, d: RawDraw): (v: Value)
    requires !EmptyIntRange(h)
    ensures v.IntV? <==> IsIntRange(h)
    ensures v.RealV? <==> !IsIntRange(h)
    ensures IsIntRange(h) ==> h.lo.i <= v.i < h.hi.i
    ensures v.RealV? ==> Min(AsReal(h.lo), AsReal(h.hi)) <= v.r <= Max(AsReal(h.lo), AsReal(h.hi))
  {
    if IsIntRange(h) then IntV(h.lo.i + d.n % (h.hi.i - h.lo.i))
    else
      var lo, hi := AsReal(h.lo), AsReal(h.hi);
      ScaledBetween(lo, hi, d.u);
      RealV(lo + d.u * (hi - lo))
  }

  /** `randint` was asked for an empty range. */
  datatype HyperError = EmptyRange(name: string)

  /** The attributes listed in `train_hypers`. */
  function Names(hs: seq<Hyper>): set<string>
  {
    set i | 0 <= i < |hs| :: hs[i].name
  }

  /** Entry `i` is the last one naming its attribute. */
  predicate LastFor(hs: seq<Hyper>, i: nat)
    requires i < |hs|
  {
    forall j :: i < j < |hs| ==> hs[j].name != hs[i].name
  }

  /** The label part `name=value` of a drawn hyper-parameter. */
  function Entry(name: string, v: Value, show: Value -> string): string
  {
    name + "=" + show(v)
  }

  /** The labels of entries `i..` of `hs` with their draws. */
  function Labels(hs: seq<Hyper>, rng: Rng, show: Value -> string, i: nat): (ls: seq<string>)
    requires i <= |hs|
    requires forall j :: i <= j < |hs| ==> !EmptyIntRange(hs[j])
    ensures |ls| == |hs| - i
    decreases |hs| - i
  {
    if i == |hs| then [] else [Entry(hs[i].name, Draw(hs[i], rng(i)), show)] + Labels(hs, rng, show, i + 1)
  }

  /** `sep.join(parts)`. */
  function Join(sep: string, parts: seq<string>): string
  {
    if |parts| == 0 then ""
    else if |parts| == 1 then parts[0]
    else parts[0] + sep + Join(sep, parts[1..])
  }

  /** Every part followed by a comma, as the label is accumulated. */
  function Terminated(parts: seq<string>): string
  {
    if |parts| == 0 then "" else parts[0] + "," + Terminated(parts[1..])
  }

  /** Accumulating "part," for every part and dropping the last character is
      the comma-join of the parts. */
  lemma {:induction false} TerminatedIsJoin(parts: seq<string>)
    requires |parts| > 0
    ensures Terminated(parts) == Join(",", parts) + ","
    decreases |parts|
  {
    if |parts| > 1 {
      TerminatedIsJoin(parts[1..]);
      assert Terminated(parts) == parts[0] + "," + (Join(",", parts[1..]) + ",");
    }
  }

  /** The draws of entries `i..` of `hs` applied to `cfg` in order, with the
      label accumulated so far; stops at the first empty integer range. */
  function RandomizeFrom(cfg: Fields, hs: seq<Hyper>, rng: Rng, show: Value -> string, i: nat, acc: string)
    : (r: Result<(Fields, string), HyperError>)
    requires i <= |hs|
    ensures r.Ok? ==> |r.value.1| >= |acc| + (|hs| - i)
    decreases |hs| - i
  {
    if i == |hs| then Ok((cfg, acc))
    else if EmptyIntRange(hs[i]) then Err(EmptyRange(hs[i].name))
    else
      var v := Draw(hs[i], rng(i));
      RandomizeFrom(cfg[hs[i].name := v], hs, rng, show, i + 1, acc + Entry(hs[i].name, v, show) + ",")
  }

  /** The configuration is a well-formed input of the randomisation: it has
      a `train_hypers` list. */
  predicate HasHypers(cfg: Fields)
  {
    "train_hypers" in cfg && cfg["train_hypers"].HypersV?
  }

  function HypersOf(cfg: Fields): seq<Hyper>
    requires HasHypers(cfg)
  {
    cfg["train_hypers"].hs
  }

  /** `randomize_hyper`: with no hyper-parameter listed, the configuration
      unchanged and an empty label; otherwise every listed attribute drawn
      in turn into a copy of the configuration and the label
      `name=value,...` with its trailing comma dropped.  An empty integer
      range raises. */
  function RandomizeHyper(cfg: Fields, rng: Rng, show: Value -> string): (r: Result<(Fields, string), HyperError>)
    requires HasHypers(cfg)
    ensures |HypersOf(cfg)| == 0 ==> r == Ok((cfg, ""))
    ensures r.Ok? ==> r.value.0.Keys == cfg.Keys + Names(HypersOf(cfg))
  {
    var hs := HypersOf(cfg);
    if |hs| < 1 then Ok((cfg, ""))
    else
      var res :- RandomizeFrom(cfg, hs, rng, show, 0, "");
      RandomizeKeys(cfg, hs, rng, show, 0, "");
      Ok((res.0, res.1[..|res.1| - 1]))
  }

  lemma {:induction false} RandomizeKeys(cfg: Fields, hs: seq<Hyper>, rng: Rng, show: Value -> string, i: nat, acc: string)
    requires i <= |hs|
    ensures var r := RandomizeFrom(cfg, hs, rng, show, i, acc);
            r.Ok? ==> r.value.0.Keys == cfg.Keys + (set j | i <= j < |hs| :: hs[j].name)
    decreases |hs| - i
  {
    if i < |hs| && !EmptyIntRange(hs[i]) {
      var v := Draw(hs[i], rng(i));
      RandomizeKeys(cfg[hs[i].name := v], hs, rng, show, i + 1, acc + Entry(hs[i].name, v, show) + ",");
      assert (set j | i <= j < |hs| :: hs[j].name) == {hs[i].name} + (set j | i + 1 <= j < |hs| :: hs[j].name);
    }
  }

  /** The randomisation fails exactly when some listed range is an empty
      integer range, and then with the first such entry. */
  lemma {:induction false} RandomizeFromFails(cfg: Fields, hs: seq<Hyper>, rng: Rng, show: Value -> string, i: nat, acc: string)
    requires i <= |hs|
    ensures var r := RandomizeFrom(cfg, hs, rng, show, i, acc);
            && (r.Err? <==> exists j :: i <= j < |hs| && EmptyIntRange(hs[j]))
            && (r.Err? ==> exists j :: i <= j < |hs| && EmptyIntRange(hs[j]) && r.error == EmptyRange(hs[j].name)
                                      && forall l :: i <= l < j ==> !EmptyIntRange(hs[l]))
    decreases |hs| - i
  {
    var r := RandomizeFrom(cfg, hs, rng, show, i, acc);
    if i < |hs| {
      if EmptyIntRange(hs[i]) {
        assert r == Err(EmptyRange(hs[i].name));
      } else {
        var v := Draw(hs[i], rng(i));
        var cfg' := cfg[hs[i].name := v];
        var acc' := acc + Entry(hs[i].name, v, show) + ",";
        RandomizeFromFails(cfg', hs, rng, show, i + 1, acc');
        assert r == RandomizeFrom(cfg', hs, rng, show, i + 1, acc');
        if r.Err? {
          var j :| i + 1 <= j < |hs| && EmptyIntRange(hs[j]) && r.error == EmptyRange(hs[j].name)
                   && forall l :: i + 1 <= l < j ==> !EmptyIntRange(hs[l]);
          assert forall l :: i <= l < j ==> !EmptyIntRange(hs[l]);
        } else {
          assert forall j :: i + 1 <= j < |hs| ==> !EmptyIntRange(hs[j]);
        }
      }
    }
  }


  /** Entries `i..` that succeed leave every attribute they do not name
      unchanged. */
  lemma {:induction false} RandomizeFromKeeps(cfg: Fields, hs: seq<Hyper>, rng: Rng, show: Value -> string,
                                              i: nat, acc: string)
    requires i <= |hs|
    requires forall j :: i <= j < |hs| ==> !EmptyIntRange(hs[j])
    ensures var r := RandomizeFrom(cfg, hs, rng, show, i, acc);
            && r.Ok?
            && (forall a :: a in cfg && (forall j :: i <= j < |hs| ==> hs[j].name != a) ==>
                  a in r.value.0 && r.value.0[a] == cfg[a])
    decreases |hs| - i
  {
    if i < |hs| {
      var v := Draw(hs[i], rng(i));
      var cfg' := cfg[hs[i].name := v];
      var acc' := acc + Entry(hs[i].name, v, show) + ",";
      RandomizeFromKeeps(cfg', hs, rng, show, i + 1, acc');
      assert RandomizeFrom(cfg, hs, rng, show, i, acc) == RandomizeFrom(cfg', hs, rng, show, i + 1, acc');
    }
  }

  /** `m` maps the attribute of every entry `i..` of `hs` that is the last
      naming it to the value drawn for that entry. */
  ghost predicate HoldsDraws(hs: seq<Hyper>, rng: Rng, i: nat, m: Fields)
    requires forall j :: i <= j < |hs| ==> !EmptyIntRange(hs[j])
  {
    forall j :: i <= j < |hs| && LastFor(hs, j) ==> hs[j].name in m && m[hs[j].name] == Draw(hs[j], rng(j))
  }

  lemma HoldsDrawsPrepend(hs: seq<Hyper>, rng: Rng, i: nat, m: Fields)
    requires i < |hs| && forall j :: i <= j < |hs| ==> !EmptyIntRange(hs[j])
    requires HoldsDraws(hs, rng, i + 1, m)
    requires LastFor(hs, i) ==> hs[i].name in m && m[hs[i].name] == Draw(hs[i], rng(i))
    ensures HoldsDraws(hs, rng, i, m)
  {
  }

  /** The draw of an entry that no later entry overrides survives the
      later draws. */
  lemma LastDrawSurvives(cfg: Fields, hs: seq<Hyper>, rng: Rng, show: Value -> string, i: nat, acc: string)
    requires i < |hs| && forall j :: i <= j < |hs| ==> !EmptyIntRange(hs[j])
    requires LastFor(hs, i)
    ensures var v := Draw(hs[i], rng(i));
            var r := RandomizeFrom(cfg[hs[i].name := v], hs, rng, show, i + 1, acc + Entry(hs[i].name, v, show) + ",");
            r.Ok? && hs[i].name in r.value.0 && r.value.0[hs[i].name] == v
  {
    var v := Draw(hs[i], rng(i));
    RandomizeFromKeeps(cfg[hs[i].name := v], hs, rng, show, i + 1, acc + Entry(hs[i].name, v, show) + ",");
  }

  /** Entries `i..` that succeed set each attribute they name to the value
      drawn for its last entry. */
  lemma {:induction false} RandomizeFromDraws(cfg: Fields, hs: seq<Hyper>, rng: Rng, show: Value -> string,
                                              i: nat, acc: string)
    requires i <= |hs|
    requires forall j :: i <= j < |hs| ==> !EmptyIntRange(hs[j])
    ensures var r := RandomizeFrom(cfg, hs, rng, show, i, acc);
            r.Ok? && HoldsDraws(hs, rng, i, r.value.0)
    decreases |hs| - i
  {
    if i < |hs| {
      var v := Draw(hs[i], rng(i));
      var cfg' := cfg[hs[i].name := v];
      var acc' := acc + Entry(hs[i].name, v, show) + ",";
      RandomizeFromDraws(cfg', hs, rng, show, i + 1, acc');
      if LastFor(hs, i) {
        LastDrawSurvives(cfg, hs, rng, show, i, acc);
      }
      HoldsDrawsPrepend(hs, rng, i, RandomizeFrom(cfg', hs, rng, show, i + 1, acc').value.0);
    }
  }

  /** Entries `i..` that succeed grow the label by their terminated
      `name=value` parts. */
  lemma {:induction false} RandomizeFromLabel(cfg: Fields, hs: seq<Hyper>, rng: Rng, show: Value -> string,
                                              i: nat, acc: string)
    requires i <= |hs|
    requires forall j :: i <= j < |hs| ==> !EmptyIntRange(hs[j])
    ensures var r := RandomizeFrom(cfg, hs, rng, show, i, acc);
            r.Ok? && r.value.1 == acc + Terminated(Labels(hs, rng, show, i))
    decreases |hs| - i
  {
    if i < |hs| {
      var v := Draw(hs[i], rng(i));
      var acc' := acc + Entry(hs[i].name, v, show) + ",";
      RandomizeFromLabel(cfg[hs[i].name := v], hs, rng, show, i + 1, acc');
      var ls := Labels(hs, rng, show, i);
      assert ls[1..] == Labels(hs, rng, show, i + 1);
      assert acc' + Terminated(ls[1..]) == acc + (ls[0] + "," + Terminated(ls[1..]));
    }
  }

  /** `randomize_hyper` on well-formed ranges: only the listed attributes
      change, each to the value drawn for its last entry (an integer exactly
      when both bounds are), and the label is the comma-join of the
      `name=value` parts in list order. */
  lemma RandomizeHyperSucceeds(cfg: Fields, rng: Rng, show: Value -> string)
    requires HasHypers(cfg)
    requires forall j :: 0 <= j < |HypersOf(cfg)| ==> !EmptyIntRange(HypersOf(cfg)[j])
    ensures var hs := HypersOf(cfg);
            var r := RandomizeHyper(cfg, rng, show);
            && r.Ok?
            && (forall a :: a in cfg && a !in Names(hs) ==> a in r.value.0 && r.value.0[a] == cfg[a])
            && (forall j :: 0 <= j < |hs| && LastFor(hs, j) ==>
                  hs[j].name in r.value.0 && r.value.0[hs[j].name] == Draw(hs[j], rng(j)))
            && r.value.1 == Join(",", Labels(hs, rng, show, 0))
  {
    var hs := HypersOf(cfg);
    if |hs| > 0 {
      RandomizeFromKeeps(cfg, hs, rng, show, 0, "");
      RandomizeFromDraws(cfg, hs, rng, show, 0, "");
      assert HoldsDraws(hs, rng, 0, RandomizeHyper(cfg, rng, show).value.0);
      RandomizeFromLabel(cfg, hs, rng, show, 0, "");
      var ls := Labels(hs, rng, show, 0);
      TerminatedIsJoin(ls);
      var full := RandomizeFrom(cfg, hs, rng, show, 0, "").value.1;
      assert full == Join(",", ls) + ",";
      assert full[..|full| - 1] == Join(",", ls);
      forall a | a in cfg && a !in Names(hs)
        ensures forall j :: 0 <= j < |hs| ==> hs[j].name != a
      {
        forall j | 0 <= j < |hs| ensures hs[j].name != a {
          assert hs[j].name in Names(hs);
        }
      }
    }
  }

  /** `randomize_hyper` raises exactly when a listed integer range is empty,
      naming the first such entry. */
  lemma RandomizeHyperFails(cfg: Fields, rng: Rng, show: Value -> string)
    requires HasHypers(cfg)
    ensures var hs := HypersOf(cfg);
            var r := RandomizeHyper(cfg, rng, show);
            && (r.Err? <==> exists j :: 0 <= j < |hs| && EmptyIntRange(hs[j]))
            && (r.Err? ==> exists j :: 0 <= j < |hs| && EmptyIntRange(hs[j]) && r.error == EmptyRange(hs[j].name)
                                      && forall l :: 0 <= l < j ==> !EmptyIntRange(hs[l]))
  {
    var hs := HypersOf(cfg);
    if |hs| > 0 {
      RandomizeFromFails(cfg, hs, rng, show, 0, "");
    }
  }
}
