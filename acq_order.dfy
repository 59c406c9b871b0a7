/**
 * The acquisition order of a multidimensional experiment as the Spinit
 * (RS2D) and JCAMP-DX readers keep it: a cached array whose entries are
 * `p<k>` (phase increment) and `d<k>` (delay increment) for the indirect
 * dimensions k. The two readers carry identical setAcqOrder, getAcqOrder
 * and resetAcqOrder code, which is modelled once here as the class
 * AcqOrderState; the short-form decoder getAcqOrderShort is the RS2D
 * reader's alone.
 */
module AcqOrder {
  import opened Wrappers
  import opened Text

  /** A non-uniform sampling schedule; only whether it is a demo schedule matters here. */
  datatype Schedule = Schedule(isDemo: bool)

  /** Whether a real (non-demo) sampling schedule is set. */
  predicate NonDemo(schedule: Option<Schedule>)
  {
    schedule.Some? && !schedule.value.isDemo
  }

  /** The entries as non-null array slots. */
  function Slots(xs: seq<string>): seq<Option<string>>
  {
    seq(|xs|, i requires 0 <= i < |xs| => Some(xs[i]))
  }

  // ----- the default order -----

  /** The default order p1,d1,p2,d2,…,pn,dn built by getAcqOrder. */
  function DefaultOrder(n: nat): seq<Option<string>>
    decreases n
  {
    if n == 0 then [] else DefaultOrder(n - 1) + [Some("p" + NatToString(n)), Some("d" + NatToString(n))]
  }

  /** The default order alternates p and d entries, numbered from 1. */
  lemma {:induction false} DefaultOrderLayout(n: nat)
    ensures |DefaultOrder(n)| == 2 * n
    ensures forall i | 0 <= i < 2 * n ::
              DefaultOrder(n)[i] == Some((if i % 2 == 0 then "p" else "d") + NatToString(i / 2 + 1))
    decreases n
  {
    if n > 0 {
      DefaultOrderLayout(n - 1);
      var r := DefaultOrder(n);
      forall i | 0 <= i < 2 * n
        ensures r[i] == Some((if i % 2 == 0 then "p" else "d") + NatToString(i / 2 + 1))
      {
        if i < 2 * (n - 1) {
          assert r[i] == DefaultOrder(n - 1)[i];
        } else {
          assert i / 2 + 1 == n;
        }
      }
    }
  }

  /** The error getAcqOrder raises when there is no dimension: an array of size -2. */
  function DefaultSizeError(): Error
  {
    NegativeArraySize("-2")
  }

  /** What getAcqOrder returns: the cached order, else the default order of the indirect dimensions. */
  function Current(nDim: nat, acqOrder: Option<seq<Option<string>>>): Result<seq<Option<string>>>
  {
    if acqOrder.Some? then Ok(acqOrder.value)
    else if nDim == 0 then Err(DefaultSizeError())
    else Ok(DefaultOrder(nDim - 1))
  }

  // ----- setting the order from a single string -----

  /** The one-character pieces of t read right to left, leaving out those equal to skip. */
  function Kept(t: string, skip: string): seq<string>
    decreases |t|
  {
    if t == [] then [] else Kept(t[1..], skip) + (if [t[0]] != skip then [[t[0]]] else [])
  }

  /** How a pass writes each kept piece: both p and d, or only one tag. */
  datatype Pass = Both | Only(tag: string)

  function Emit(d: string, pass: Pass): seq<string>
  {
    match pass
    case Both => ["p" + d, "d" + d]
    case Only(tag) => [tag + d]
  }

  /** The entries one pass writes over the pieces ds, in order. */
  function Tagged(ds: seq<string>, pass: Pass): seq<string>
    decreases |ds|
  {
    if ds == [] then [] else Tagged(ds[..|ds| - 1], pass) + Emit(ds[|ds| - 1], pass)
  }

  /** The entries setAcqOrder writes for s: all p before all d with a real schedule, else p,d pairs. */
  function Entries(s: string, skip: string, schedule: Option<Schedule>): seq<string>
  {
    var ds := Kept(s, skip);
    if NonDemo(schedule) then Tagged(ds, Only("p")) + Tagged(ds, Only("d")) else Tagged(ds, Both)
  }

  /** An array of size n after writing e from the start: slots past e stay null. */
  function Stored(e: seq<string>, n: nat): seq<Option<string>>
  {
    seq(n, i requires 0 <= i < n => if i < |e| then Some(e[i]) else None)
  }

  /** The exception of a write at index n into an array of length n. */
  function OverflowError(n: nat): Error
  {
    IndexOutOfBounds("Index " + NatToString(n) + " out of bounds for length " + NatToString(n))
  }

  /** The new array and the exception, if any, of writing e into an array of size n. */
  function Fill(e: seq<string>, n: nat): (Option<seq<Option<string>>>, Option<Error>)
  {
    (Some(Stored(e, n)), if |e| <= n then None else Some(OverflowError(n)))
  }

  /** The stored order and the exception of setAcqOrder(newOrder). */
  function SetOutcome(nDim: nat, schedule: Option<Schedule>, current: Option<seq<Option<string>>>,
                      newOrder: seq<string>): (Option<seq<Option<string>>>, Option<Error>)
  {
    if |newOrder| != 1 then (Some(Slots(newOrder)), None)
    else
      var s := newOrder[0];
      if |s| == nDim || |s| == nDim - 1 then
        if nDim == 0 then (current, Some(DefaultSizeError()))
        else Fill(Entries(s, NatToString(nDim), schedule), 2 * (nDim - 1))
      else if |s| > nDim then Fill(Entries(s, NatToString(nDim + 1), schedule), 2 * (|s| - 1))
      else (current, None)
  }

  // ----- the short form -----

  /** Reading the order from its last entry: the letters after each p, or a stop. */
  datatype Walked = Letters(text: string) | Abandoned | Failed(error: Error)

  function Prepend(letters: string, w: Walked): Walked
  {
    match w
    case Letters(t) => Letters(letters + t)
    case Abandoned => Abandoned
    case Failed(e) => Failed(e)
  }

  /** The exception of charAt past the end of a string. */
  function CharAtError(i: nat): Error
  {
    IndexOutOfBounds("index " + NatToString(i))
  }

  function Walk(order: seq<Option<string>>): Walked
    decreases |order|
  {
    if order == [] then Letters("")
    else
      var init := order[..|order| - 1];
      match order[|order| - 1]
      case None => Failed(NullPointer("acqOrder entry"))
      case Some(e) =>
        if |e| == 0 then Failed(CharAtError(0))
        else if e[0] == 'p' then
          if |e| < 2 then Failed(CharAtError(1)) else Prepend([e[1]], Walk(init))
        else if e[0] == 'a' then Abandoned
        else Walk(init)
  }

  /** getAcqOrderShort on a given order: the dimension count, then the p digits from the last entry back. */
  function Short(nDim: nat, order: seq<Option<string>>): Result<string>
  {
    var head := if |order| / 2 == nDim then NatToString(|order| / 2 + 1) else NatToString(nDim);
    match Walk(order)
    case Letters(t) => Ok(head + t)
    case Abandoned => Ok("")
    case Failed(e) => Err(e)
  }

  function ShortOf(nDim: nat, acqOrder: Option<seq<Option<string>>>): Result<string>
  {
    match Current(nDim, acqOrder)
    case Ok(o) => Short(nDim, o)
    case Err(e) => Err(e)
  }

  // ----- lemmas about the pieces -----

  lemma {:induction false} KeptConcat(u: string, v: string, skip: string)
    ensures Kept(u + v, skip) == Kept(v, skip) + Kept(u, skip)
    decreases |u|
  {
    if u == [] {
      assert u + v == v;
    } else {
      var w := u + v;
      assert w[0] == u[0] && w[1..] == u[1..] + v;
      KeptConcat(u[1..], v, skip);
    }
  }

  /** Reading one more character to the left. */
  lemma {:induction false} KeptStep(s: string, i: nat, skip: string)
    requires i < |s|
    ensures Kept(s[..i + 1], skip) == (if s[i..i + 1] != skip then [s[i..i + 1]] else []) + Kept(s[..i], skip)
  {
    assert s[..i + 1] == s[..i] + s[i..i + 1];
    KeptConcat(s[..i], s[i..i + 1], skip);
    var t := s[i..i + 1];
    assert t[1..] == [] && [t[0]] == t;
  }

  lemma {:induction false} TaggedConcat(ds: seq<string>, es: seq<string>, pass: Pass)
    ensures Tagged(ds + es, pass) == Tagged(ds, pass) + Tagged(es, pass)
    decreases |es|
  {
    if es == [] {
      assert ds + es == ds;
    } else {
      var init := es[..|es| - 1];
      var e := es[|es| - 1];
      LastSplit(ds, es);
      TaggedConcat(ds, init, pass);
      var a, b, x := Tagged(ds, pass), Tagged(init, pass), Emit(e, pass);
      assert Tagged(ds + es, pass) == (a + b) + x;
      assert Tagged(es, pass) == b + x;
      assert (a + b) + x == a + (b + x);
    }
  }

  /** The last element and the rest of a concatenation whose second part is not empty. */
  lemma {:induction false} LastSplit<T>(ds: seq<T>, es: seq<T>)
    requires es != []
    ensures var w := ds + es; w[..|w| - 1] == ds + es[..|es| - 1] && w[|w| - 1] == es[|es| - 1]
  {
  }

  lemma {:induction false} TaggedFront(d: string, ds: seq<string>, pass: Pass)
    ensures Tagged([d] + ds, pass) == Emit(d, pass) + Tagged(ds, pass)
  {
    TaggedConcat([d], ds, pass);
    assert [d][..0] == [];
  }

  /** A single-tag pass writes tag + piece for each piece in order. */
  lemma {:induction false} TaggedOnly(ds: seq<string>, tag: string)
    ensures |Tagged(ds, Only(tag))| == |ds|
    ensures forall k | 0 <= k < |ds| :: Tagged(ds, Only(tag))[k] == tag + ds[k]
    decreases |ds|
  {
    if ds != [] {
      TaggedOnly(ds[..|ds| - 1], tag);
    }
  }

  /** An interleaving pass writes p + piece, d + piece for each piece in order. */
  lemma {:induction false} TaggedBoth(ds: seq<string>)
    ensures |Tagged(ds, Both)| == 2 * |ds|
    ensures forall i | 0 <= i < 2 * |ds| :: Tagged(ds, Both)[i] == (if i % 2 == 0 then "p" else "d") + ds[i / 2]
    decreases |ds|
  {
    if ds != [] {
      var init := ds[..|ds| - 1];
      TaggedBoth(init);
      var r := Tagged(ds, Both);
      forall i | 0 <= i < 2 * |ds|
        ensures r[i] == (if i % 2 == 0 then "p" else "d") + ds[i / 2]
      {
        if i < 2 * |init| {
          assert r[i] == Tagged(init, Both)[i];
          assert ds[i / 2] == init[i / 2];
        } else {
          assert i / 2 == |ds| - 1;
        }
      }
    }
  }

  /**
   * The layout setAcqOrder writes: with a real schedule every p entry comes
   * before every d entry; otherwise each kept digit gives a p,d pair.
   */
  lemma {:induction false} EntriesLayout(s: string, skip: string, schedule: Option<Schedule>)
    ensures var e := Entries(s, skip, schedule); var ds := Kept(s, skip);
            |e| == 2 * |ds| &&
            (NonDemo(schedule) ==>
               forall i | 0 <= i < |e| :: e[i] == (if i < |ds| then "p" + ds[i] else "d" + ds[i - |ds|])) &&
            (!NonDemo(schedule) ==>
               forall i | 0 <= i < |e| :: e[i] == (if i % 2 == 0 then "p" else "d") + ds[i / 2])
  {
    var ds := Kept(s, skip);
    TaggedOnly(ds, "p");
    TaggedOnly(ds, "d");
    TaggedBoth(ds);
  }

  lemma {:induction false} StoredPrefix(e: seq<string>, f: seq<string>, n: nat)
    requires |e| >= n
    ensures Stored(e + f, n) == Stored(e, n)
  {
  }

  lemma {:induction false} StoredPush(cur: seq<string>, x: string, n: nat)
    requires |cur| < n
    ensures Stored(cur, n)[|cur| := Some(x)] == Stored(cur + [x], n)
  {
  }

  lemma {:induction false} StoredFull(e: seq<string>)
    ensures Stored(e, |e|) == Slots(e)
  {
  }

  // ----- the round trip -----

  /** The characters after the p of each entry, read from the last piece back. */
  function Heads(ds: seq<string>): string
    decreases |ds|
  {
    if ds == [] then "" else
      var d := ds[|ds| - 1];
      (if |d| > 0 then [d[0]] else "") + Heads(ds[..|ds| - 1])
  }

  predicate SingleChars(ds: seq<string>)
  {
    forall k | 0 <= k < |ds| :: |ds[k]| == 1
  }

  /** Without the skipped digit, the kept pieces read back give the text itself. */
  lemma {:induction false} KeptHeads(t: string, skip: string)
    requires forall i | 0 <= i < |t| :: [t[i]] != skip
    ensures |Kept(t, skip)| == |t| && SingleChars(Kept(t, skip)) && Heads(Kept(t, skip)) == t
    decreases |t|
  {
    if t != [] {
      KeptHeads(t[1..], skip);
      var ds := Kept(t, skip);
      assert ds == Kept(t[1..], skip) + [[t[0]]];
      assert ds[..|ds| - 1] == Kept(t[1..], skip);
      assert Heads(ds) == [t[0]] + t[1..];
    }
  }

  lemma {:induction false} SlotsConcat(a: seq<string>, b: seq<string>)
    ensures Slots(a + b) == Slots(a) + Slots(b)
  {
  }

  /** Walking an order that ends in one entry. */
  lemma {:induction false} WalkLast(front: seq<Option<string>>, x: Option<string>)
    ensures Walk(front + [x]) ==
            match x
            case None => Failed(NullPointer("acqOrder entry"))
            case Some(e) =>
              if |e| == 0 then Failed(CharAtError(0))
              else if e[0] == 'p' then
                if |e| < 2 then Failed(CharAtError(1)) else Prepend([e[1]], Walk(front))
              else if e[0] == 'a' then Abandoned
              else Walk(front)
  {
    var w := front + [x];
    assert w[..|w| - 1] == front;
  }

  /** d entries are passed over when reading back. */
  lemma {:induction false} WalkSkipsDelays(front: seq<Option<string>>, ds: seq<string>)
    ensures Walk(front + Slots(Tagged(ds, Only("d")))) == Walk(front)
    decreases |ds|
  {
    if ds == [] {
      assert front + Slots([]) == front;
    } else {
      var init := ds[..|ds| - 1];
      var d := ds[|ds| - 1];
      SlotsConcat(Tagged(init, Only("d")), ["d" + d]);
      assert front + Slots(Tagged(ds, Only("d"))) == (front + Slots(Tagged(init, Only("d")))) + [Some("d" + d)];
      WalkLast(front + Slots(Tagged(init, Only("d"))), Some("d" + d));
      WalkSkipsDelays(front, init);
    }
  }

  /** Reading back a pass that writes p entries yields the pieces' characters, last piece first. */
  lemma {:induction false} WalkPhases(ds: seq<string>, pass: Pass)
    requires pass == Both || pass == Only("p")
    requires SingleChars(ds)
    ensures Walk(Slots(Tagged(ds, pass))) == Letters(Heads(ds))
    decreases |ds|
  {
    if ds == [] {
      assert Slots([]) == [];
    } else {
      var init := ds[..|ds| - 1];
      var d := ds[|ds| - 1];
      assert SingleChars(init) by {
        forall k | 0 <= k < |init| ensures |init[k]| == 1 {
          assert init[k] == ds[k];
        }
      }
      WalkPhases(init, pass);
      var front := Slots(Tagged(init, pass));
      SlotsConcat(Tagged(init, pass), Emit(d, pass));
      var p := "p" + d;
      assert p[0] == 'p' && p[1] == d[0];
      if pass == Both {
        assert Slots(Tagged(ds, pass)) == (front + [Some(p)]) + [Some("d" + d)];
        WalkLast(front + [Some(p)], Some("d" + d));
        WalkLast(front, Some(p));
      } else {
        assert Slots(Tagged(ds, pass)) == front + [Some(p)];
        WalkLast(front, Some(p));
      }
    }
  }

  /**
   * Round trip: for nDim ≤ 9, setting the order from a string made of the
   * digit nDim and other characters, then asking for the short form, gives
   * the string back, with or without a sampling schedule.
   */
  lemma {:induction false} AcqOrderRoundTrip(nDim: nat, schedule: Option<Schedule>, current: Option<seq<Option<string>>>, s: string)
    requires 1 <= nDim <= 9
    requires |s| == nDim && s[0] == DigitChar(nDim)
    requires forall i | 1 <= i < |s| :: s[i] != s[0]
    ensures SetOutcome(nDim, schedule, current, [s]).1 == None
    ensures SetOutcome(nDim, schedule, current, [s]).0.Some?
    ensures Short(nDim, SetOutcome(nDim, schedule, current, [s]).0.value) == Ok(s)
  {
    var skip := NatToString(nDim);
    assert skip == [s[0]];
    var t := s[1..];
    assert s == [s[0]] + t;
    KeptConcat([s[0]], t, skip);
    assert Kept([s[0]], skip) == [] by {
      assert [s[0]][1..] == [];
    }
    assert Kept(s, skip) == Kept(t, skip);
    KeptHeads(t, skip);
    var ds := Kept(t, skip);
    var e := Entries(s, skip, schedule);
    EntriesLayout(s, skip, schedule);
    var n := 2 * (nDim - 1);
    assert |e| == n;
    StoredFull(e);
    var o := Slots(e);
    assert SetOutcome(nDim, schedule, current, [s]) == (Some(o), None);
    if NonDemo(schedule) {
      SlotsConcat(Tagged(ds, Only("p")), Tagged(ds, Only("d")));
      WalkSkipsDelays(Slots(Tagged(ds, Only("p"))), ds);
      WalkPhases(ds, Only("p"));
    } else {
      WalkPhases(ds, Both);
    }
    assert Walk(o) == Letters(t);
    assert |o| / 2 == nDim - 1;
  }

  // ----- the imperative writes -----

  /** A kept character to the left adds its entries in front. */
  lemma {:induction false} PassKeep(s: string, i: nat, skip: string, pass: Pass)
    requires i < |s| && s[i..i + 1] != skip
    ensures Tagged(Kept(s[..i + 1], skip), pass) == Emit(s[i..i + 1], pass) + Tagged(Kept(s[..i], skip), pass)
  {
    KeptStep(s, i, skip);
    TaggedFront(s[i..i + 1], Kept(s[..i], skip), pass);
  }

  /** A skipped character to the left adds nothing. */
  lemma {:induction false} PassSkip(s: string, i: nat, skip: string, pass: Pass)
    requires i < |s| && s[i..i + 1] == skip
    ensures Tagged(Kept(s[..i + 1], skip), pass) == Tagged(Kept(s[..i], skip), pass)
  {
    KeptStep(s, i, skip);
    assert Kept(s[..i + 1], skip) == Kept(s[..i], skip);
  }

  /** The array holds e from the start and null after it. */
  ghost predicate Holds(a: array<Option<string>>, e: seq<string>)
    reads a
  {
    forall k | 0 <= k < a.Length :: a[k] == (if k < |e| then Some(e[k]) else None)
  }

  lemma {:induction false} HoldsStored(a: array<Option<string>>, e: seq<string>)
    requires Holds(a, e)
    ensures a[..] == Stored(e, a.Length)
  {
  }

  lemma {:induction false} Shift(cur: seq<string>, x: string, rest: seq<string>)
    ensures cur + ([x] + rest) == (cur + [x]) + rest
  {
  }

  lemma {:induction false} Regroup(cur: seq<string>, x: string, y: string, rest: seq<string>)
    ensures cur + ([x, y] + rest) == cur + ([x] + ([y] + rest))
  {
    assert [x, y] + rest == [x] + ([y] + rest);
  }

  /** One `acqOrder[j++] = x`: fails, writing nothing, when j is past the end. */
  method Put(a: array<Option<string>>, j: nat, x: string, ghost cur: seq<string>, ghost rest: seq<string>)
    returns (ok: bool)
    requires j == |cur| <= a.Length
    requires Holds(a, cur)
    modifies a
    ensures ok == (j < a.Length)
    ensures if ok then Holds(a, cur + [x]) else Holds(a, cur + ([x] + rest))
  {
    if j == a.Length {
      return false;
    }
    a[j] := Some(x);
    return true;
  }

  /** The interleaved loop: each kept digit of s, right to left, writes p<digit> then d<digit>. */
  method WritePairs(a: array<Option<string>>, s: string, skip: string) returns (ok: bool)
    requires Holds(a, [])
    modifies a
    ensures Holds(a, Tagged(Kept(s, skip), Both))
    ensures ok == (|Tagged(Kept(s, skip), Both)| <= a.Length)
  {
    ghost var whole := Tagged(Kept(s, skip), Both);
    ghost var cur: seq<string> := [];
    assert s[..|s|] == s;
    var i := |s|;
    var j := 0;
    while i > 0
      invariant 0 <= i <= |s|
      invariant j == |cur| <= a.Length
      invariant Holds(a, cur)
      invariant whole == cur + Tagged(Kept(s[..i], skip), Both)
      decreases i
    {
      i := i - 1;
      var dimStr := s[i..i + 1];
      ghost var rest := Tagged(Kept(s[..i], skip), Both);
      if dimStr != skip {
        PassKeep(s, i, skip, Both);
        var pEntry := "p" + dimStr;
        var dEntry := "d" + dimStr;
        ghost var before := Tagged(Kept(s[..i + 1], skip), Both);
        assert before == [pEntry, dEntry] + rest;
        Regroup(cur, pEntry, dEntry, rest);
        assert whole == cur + before;
        ok := Put(a, j, pEntry, cur, [dEntry] + rest);
        if !ok {
          return;
        }
        Shift(cur, pEntry, [dEntry] + rest);
        cur := cur + [pEntry];
        j := j + 1;
        assert whole == cur + ([dEntry] + rest);
        ok := Put(a, j, dEntry, cur, rest);
        if !ok {
          return;
        }
        Shift(cur, dEntry, rest);
        cur := cur + [dEntry];
        j := j + 1;
        assert whole == cur + rest;
      } else {
        PassSkip(s, i, skip, Both);
      }
    }
    assert s[..0] == [];
    ok := true;
  }

  /** One loop of a scheduled order: each kept digit of s, right to left, writes tag<digit> from index j0 on. */
  method WriteTagged(a: array<Option<string>>, j0: nat, s: string, skip: string, tag: string, ghost prior: seq<string>)
    returns (j: nat, ok: bool)
    requires |prior| == j0 <= a.Length
    requires Holds(a, prior)
    modifies a
    ensures Holds(a, prior + Tagged(Kept(s, skip), Only(tag)))
    ensures ok == (|prior + Tagged(Kept(s, skip), Only(tag))| <= a.Length)
    ensures ok ==> j == |prior + Tagged(Kept(s, skip), Only(tag))|
  {
    ghost var whole := prior + Tagged(Kept(s, skip), Only(tag));
    ghost var cur := prior;
    assert s[..|s|] == s;
    var i := |s|;
    j := j0;
    while i > 0
      invariant 0 <= i <= |s|
      invariant j == |cur| <= a.Length
      invariant Holds(a, cur)
      invariant whole == cur + Tagged(Kept(s[..i], skip), Only(tag))
      decreases i
    {
      i := i - 1;
      var dimStr := s[i..i + 1];
      ghost var rest := Tagged(Kept(s[..i], skip), Only(tag));
      if dimStr != skip {
        PassKeep(s, i, skip, Only(tag));
        assert Emit(dimStr, Only(tag)) == [tag + dimStr];
        assert whole == cur + ([tag + dimStr] + rest);
        ok := Put(a, j, tag + dimStr, cur, rest);
        if !ok {
          return;
        }
        Shift(cur, tag + dimStr, rest);
        cur := cur + [tag + dimStr];
        j := j + 1;
        assert whole == cur + rest;
      } else {
        PassSkip(s, i, skip, Only(tag));
      }
    }
    assert s[..0] == [];
    ok := true;
  }

  lemma {:induction false} PrependMore(letters: string, c: char, w: Walked)
    ensures Prepend(letters, Prepend([c], w)) == Prepend(letters + [c], w)
  {
    if w.Letters? {
      assert letters + ([c] + w.text) == (letters + [c]) + w.text;
    }
  }

  /** The loop of getAcqOrderShort over a given order, from the last entry back. */
  method ReadShort(nDim: nat, order: seq<Option<string>>) returns (r: Result<string>)
    ensures r == Short(nDim, order)
  {
    var head := if |order| / 2 == nDim then NatToString(|order| / 2 + 1) else NatToString(nDim);
    var letters := "";
    var i := |order|;
    assert order[..i] == order;
    while i > 0
      invariant 0 <= i <= |order|
      invariant Walk(order) == Prepend(letters, Walk(order[..i]))
      decreases i
    {
      i := i - 1;
      var elem := order[i];
      WalkLast(order[..i], elem);
      assert order[..i + 1] == order[..i] + [elem];
      if elem.None? {
        return Err(NullPointer("acqOrder entry"));
      }
      var e := elem.value;
      if |e| == 0 {
        return Err(CharAtError(0));
      }
      if e[0] == 'p' {
        if |e| < 2 {
          return Err(CharAtError(1));
        }
        PrependMore(letters, e[1], Walk(order[..i]));
        letters := letters + [e[1]];
      } else if e[0] == 'a' {
        return Ok("");
      }
    }
    assert order[..0] == [];
    assert letters + "" == letters;
    assert Walk(order) == Letters(letters);
    r := Ok(head + letters);
  }

  /**
   * The acquisition-order fields of a reader: the number of dimensions,
   * the sampling schedule and the cached order (None for Java's null; a
   * slot None for a null array element).
   */
  class AcqOrderState {
    const nDim: nat
    var schedule: Option<Schedule>
    var acqOrder: Option<seq<Option<string>>>

    constructor(nDim: nat)
      ensures this.nDim == nDim && schedule == None && acqOrder == None
    {
      this.nDim := nDim;
      schedule := None;
      acqOrder := None;
    }

    method SetSampleSchedule(schedule: Option<Schedule>)
      modifies this`schedule
      ensures this.schedule == schedule
    {
      this.schedule := schedule;
    }

    /** resetAcqOrder: forget the cached order. */
    method ResetAcqOrder()
      modifies this`acqOrder
      ensures acqOrder == None
    {
      acqOrder := None;
    }

    /** getAcqOrder: the cached order, else the default order, which is then cached. */
    method GetAcqOrder() returns (r: Result<seq<Option<string>>>)
      modifies this`acqOrder
      ensures r == Current(nDim, old(acqOrder))
      ensures acqOrder == if r.Ok? then Some(r.value) else old(acqOrder)
    {
      if acqOrder.None? {
        if nDim == 0 {
          return Err(DefaultSizeError());
        }
        var idNDim := nDim - 1;
        var a := new Option<string>[idNDim * 2](_ => None);
        for i := 0 to idNDim
          invariant a[..i * 2] == DefaultOrder(i)
        {
          a[i * 2] := Some("p" + NatToString(i + 1));
          a[i * 2 + 1] := Some("d" + NatToString(i + 1));
          assert a[..(i + 1) * 2] == a[..i * 2] + [a[i * 2], a[i * 2 + 1]];
        }
        assert a[..] == a[..idNDim * 2];
        acqOrder := Some(a[..]);
      }
      return Ok(acqOrder.value);
    }

    /** Writes the entries of s into a new array of size n, which becomes the order. */
    method FillOrder(s: string, n: nat, skip: string) returns (err: Option<Error>)
      modifies this`acqOrder
      ensures (acqOrder, err) == Fill(Entries(s, skip, schedule), n)
    {
      var a := new Option<string>[n](_ => None);
      var j: nat, ok: bool;
      ghost var ds := Kept(s, skip);
      if (schedule.Some? && !schedule.value.isDemo) {
        j, ok := WriteTagged(a, 0, s, skip, "p", []);
        assert [] + Tagged(ds, Only("p")) == Tagged(ds, Only("p"));
        if ok {
          j, ok := WriteTagged(a, j, s, skip, "d", Tagged(ds, Only("p")));
          HoldsStored(a, Tagged(ds, Only("p")) + Tagged(ds, Only("d")));
        } else {
          HoldsStored(a, Tagged(ds, Only("p")));
          StoredPrefix(Tagged(ds, Only("p")), Tagged(ds, Only("d")), n);
        }
      } else {
        ok := WritePairs(a, s, skip);
        HoldsStored(a, Tagged(ds, Both));
      }
      acqOrder := Some(a[..]);
      err := if ok then None else Some(OverflowError(n));
    }

    /**
     * setAcqOrder: an array of other than one element is copied. A single
     * string of length nDim or nDim-1 is read right to left skipping the
     * digit nDim; a longer one skipping nDim+1; a shorter one changes nothing.
     */
    method SetAcqOrder(newOrder: seq<string>) returns (err: Option<Error>)
      modifies this`acqOrder
      ensures (acqOrder, err) == SetOutcome(nDim, schedule, old(acqOrder), newOrder)
    {
      err := None;
      if |newOrder| == 1 {
        var s := newOrder[0];
        var len := |s|;
        var nIDim := nDim as int - 1;
        if len == nDim || len == nIDim {
          if nDim == 0 {
            return Some(DefaultSizeError());
          }
          assert nIDim * 2 == 2 * (nDim - 1);
          err := FillOrder(s, nIDim * 2, NatToString(nDim));
        } else if len > nDim {
          err := FillOrder(s, (len - 1) * 2, NatToString(nDim + 1));
        }
      } else {
        var a := new Option<string>[|newOrder|](i requires 0 <= i < |newOrder| => Some(newOrder[i]));
        assert a[..] == Slots(newOrder);
        acqOrder := Some(a[..]);
      }
    }

    /**
     * getAcqOrderShort: the dimension count (one more than the number of
     * pairs when that equals nDim), then the digit of each p entry from
     * the last entry back; "" as soon as an entry starts with 'a'.
     */
    method GetAcqOrderShort() returns (r: Result<string>)
      modifies this`acqOrder
      ensures r == ShortOf(nDim, old(acqOrder))
      ensures acqOrder == if Current(nDim, old(acqOrder)).Ok? then Some(Current(nDim, old(acqOrder)).value) else old(acqOrder)
    {
      var got := GetAcqOrder();
      if got.Err? {
        return Err(got.error);
      }
      r := ReadShort(nDim, got.value);
    }
  }
}
