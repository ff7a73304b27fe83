/** The tables that a list of keys fills. */
module JsonTables {
  import opened Wrappers
  import opened Text
  import opened Documents
  import opened JsonTree
  import opened JsonScan

  function LocationAt(s: string, i: nat): Location
    requires i <= |s|
  {
    Location(LineAt(s, i), LineText(s, LineAt(s, i)))
  }

  function Add(s: string, t: Tables, e: Entry): Tables
    requires e.at <= |s|
  {
    var path := Join(e.components);
    Tables(t.locations[path := LocationAt(s, e.at)], t.values[path := e.value])
  }

  ghost predicate Inside(s: string, es: seq<Entry>) {
    forall e :: e in es ==> e.at <= |s|
  }

  /** Recording keys one after the other; the first that is already there ends the scan. */
  ghost function Record(s: string, t: Tables, es: seq<Entry>): Result<Tables, JsonError>
    requires Inside(s, es)
    decreases |es|
  {
    if es == [] then Ok(t)
    else if Join(es[0].components) in t.locations then Err(DuplicateKey(Join(es[0].components)))
    else Record(s, Add(s, t, es[0]), es[1..])
  }

  lemma RecordNone(s: string, t: Tables)
    ensures Inside(s, []) && Record(s, t, []) == Ok(t)
  {
  }

  lemma RecordFirst(s: string, t: Tables, first: Entry, rest: seq<Entry>)
    requires first.at <= |s| && Inside(s, rest)
    ensures Inside(s, [first] + rest)
    ensures Record(s, t, [first] + rest)
      == if Join(first.components) in t.locations then Err(DuplicateKey(Join(first.components)))
         else Record(s, Add(s, t, first), rest)
  {
    hide Add, Join;
    assert ([first] + rest)[1..] == rest;
  }

  lemma {:induction false} RecordConcat(s: string, t: Tables, a: seq<Entry>, b: seq<Entry>)
    requires Inside(s, a) && Inside(s, b)
    ensures Inside(s, a + b)
    ensures var first := Record(s, t, a);
      Record(s, t, a + b) == if first.Ok? then Record(s, first.value, b) else first
    decreases |a|
  {
    hide Add, Join;
    assert forall e :: e in a + b ==> e in a || e in b;
    if a == [] {
      assert a + b == b;
    } else {
      assert (a + b)[0] == a[0];
      RecordConcat(s, Add(s, t, a[0]), a[1..], b);
      assert (a + b)[1..] == a[1..] + b;
    }
  }

  /** The tables hold exactly these keys, each with its own line and value. */
  ghost predicate Holds(s: string, t: Tables, es: seq<Entry>)
    requires Inside(s, es)
  {
    && t.locations.Keys == (set e | e in es :: Join(e.components))
    && t.values.Keys == t.locations.Keys
    && forall e :: e in es ==>
      && t.locations[Join(e.components)] == LocationAt(s, e.at)
      && t.values[Join(e.components)] == e.value
  }

  lemma AddHolds(s: string, t: Tables, es: seq<Entry>, e: Entry)
    requires Inside(s, es) && e.at <= |s| && Holds(s, t, es)
    requires forall f :: f in es ==> Join(f.components) != Join(e.components)
    ensures Inside(s, es + [e]) && Holds(s, Add(s, t, e), es + [e])
  {
    hide Join, LocationAt;
    var t1 := Add(s, t, e);
    assert forall f :: f in es + [e] <==> f in es || f == e;
    assert t1.locations.Keys == t.locations.Keys + {Join(e.components)};
    assert t1.values.Keys == t.values.Keys + {Join(e.components)};
  }

  /** The first `n` keys differ, and the next is one of them. */
  ghost predicate FirstClash(es: seq<Entry>, n: nat) {
    && n < |es| && Distinct(es[..n])
    && exists e :: e in es[..n] && Join(e.components) == Join(es[n].components)
  }

  /**
   Recording behind keys that are there already succeeds exactly when no two keys have the same path, and
   then the tables hold exactly these; otherwise the first key that comes again is named.
   */
  lemma {:induction false} RecordHolds(s: string, t: Tables, done: seq<Entry>, es: seq<Entry>)
    requires Inside(s, done) && Inside(s, es) && Holds(s, t, done) && Distinct(done)
    ensures Inside(s, done + es)
    ensures var r := Record(s, t, es);
      && (r.Ok? <==> Distinct(done + es))
      && (r.Ok? ==> Holds(s, r.value, done + es))
      && (r.Err? ==> exists n: nat ::
            FirstClash(done + es, n) && r.error == DuplicateKey(Join((done + es)[n].components)))
    decreases |es|
  {
    hide Holds, LocationAt, Add, Join, Distinct;
    if es == [] {
      assert done + es == done;
    } else {
      var e, all, n := es[0], done + es, |done|;
      assert all[n] == e && all[..n] == done;
      PathsHeld(s, t, done, e);
      if Join(e.components) in t.locations {
        assert FirstClash(all, n);
        ClashIsNotDistinct(all, n);
      } else {
        AddHolds(s, t, done, e);
        DistinctSnoc(done, e);
        assert (done + [e]) + es[1..] == all;
        RecordHolds(s, Add(s, t, e), done + [e], es[1..]);
      }
    }
  }

  lemma PathsHeld(s: string, t: Tables, es: seq<Entry>, e: Entry)
    requires Inside(s, es) && Holds(s, t, es)
    ensures Join(e.components) in t.locations <==> exists f :: f in es && Join(f.components) == Join(e.components)
  {
    hide Join, LocationAt;
  }

  lemma DistinctSnoc(es: seq<Entry>, e: Entry)
    requires Distinct(es) && forall f :: f in es ==> Join(f.components) != Join(e.components)
    ensures Distinct(es + [e])
  {
    hide Join;
  }

  lemma ClashIsNotDistinct(es: seq<Entry>, n: nat)
    requires FirstClash(es, n)
    ensures !Distinct(es)
  {
    hide Join;
    var e :| e in es[..n] && Join(e.components) == Join(es[n].components);
    var i :| 0 <= i < n && es[..n][i] == e;
    assert es[i] == e;
  }

  lemma HoldsNothing(s: string)
    ensures Inside(s, []) && Holds(s, Tables(map[], map[]), []) && Distinct([])
  {
  }
}
