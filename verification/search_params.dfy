/**
 `URLSearchParams` as the image helpers use it: parsing a query string into
 an ordered list of name/value pairs, `set`, and `toString`. Percent- and
 `+`-decoding and encoding are not modelled: names and values are the raw
 text between the separators.
 */
module SearchParams {
  import opened Js

  datatype Param = Param(name: string, value: string)

  // ---------------------------------------------------------------------------
  // Parsing and serialising
  // ---------------------------------------------------------------------------

  /** One `name=value` piece; a piece without `=` has an empty value. */
  function ParsePair(piece: string): Param
  {
    var i := FindChar(piece, '=');
    Param(piece[..i], if i < |piece| then piece[i + 1..] else "")
  }

  function ParsePieces(pieces: seq<string>): seq<Param>
  {
    if |pieces| == 0 then []
    else (if pieces[0] == "" then [] else [ParsePair(pieces[0])]) + ParsePieces(pieces[1..])
  }

  /** `new URLSearchParams(query)`: the `&`-separated pieces, empty pieces skipped. */
  function Parse(query: string): seq<Param>
  {
    ParsePieces(Split(query, '&'))
  }

  function PairString(p: Param): string
  {
    p.name + "=" + p.value
  }

  function PairStrings(q: seq<Param>): seq<string>
  {
    seq(|q|, i requires 0 <= i < |q| => PairString(q[i]))
  }

  /** `params.toString()` */
  function Serialize(q: seq<Param>): string
  {
    Join(PairStrings(q), '&')
  }

  /** A pair `toString` and the parser agree on: no separator inside a name or value. */
  predicate Serializable(p: Param)
  {
    '&' !in p.name && '=' !in p.name && '&' !in p.value
  }

  /** Every pair of `q` is serialisable and free of `c`. */
  predicate AllAvoid(q: seq<Param>, c: char)
  {
    forall p :: p in q ==> Serializable(p) && c !in p.name && c !in p.value
  }

  lemma ParsePairOfPairString(p: Param)
    requires Serializable(p)
    ensures ParsePair(PairString(p)) == p
  {
    var s := PairString(p);
    assert s == p.name + ['='] + p.value;
    assert s[|p.name|] == '=';
    assert forall j :: 0 <= j < |p.name| ==> s[j] == p.name[j];
    assert FindChar(s, '=') == |p.name|;
    assert s[..|p.name|] == p.name;
    assert s[|p.name| + 1..] == p.value;
  }

  lemma {:induction false} ParsePiecesOfPairStrings(q: seq<Param>)
    requires forall p :: p in q ==> Serializable(p)
    ensures ParsePieces(PairStrings(q)) == q
    decreases |q|
  {
    if |q| > 0 {
      assert PairStrings(q)[0] == PairString(q[0]);
      assert PairStrings(q)[1..] == PairStrings(q[1..]);
      assert PairString(q[0]) != "" by { assert |PairString(q[0])| >= 1; }
      ParsePairOfPairString(q[0]);
      ParsePiecesOfPairStrings(q[1..]);
    }
  }

  /** Parsing what `toString` wrote gives back the same pairs, in the same order. */
  lemma ParseOfSerialize(q: seq<Param>)
    requires forall p :: p in q ==> Serializable(p)
    ensures Parse(Serialize(q)) == q
  {
    if |q| == 0 {
      assert Serialize(q) == "";
      assert Split("", '&') == [""];
    } else {
      var pieces := PairStrings(q);
      forall k | 0 <= k < |pieces|
        ensures '&' !in pieces[k]
      {
        assert q[k] in q;
        assert pieces[k] == q[k].name + "=" + q[k].value;
      }
      SplitOfJoin(pieces, '&');
      ParsePiecesOfPairStrings(q);
    }
  }

  /** A character that is not a separator and occurs in no pair never occurs in the serialisation. */
  lemma {:induction false} SerializeAvoids(q: seq<Param>, c: char)
    requires c != '&' && c != '='
    requires AllAvoid(q, c)
    ensures c !in Serialize(q)
    decreases |q|
  {
    if |q| > 1 {
      assert PairStrings(q)[1..] == PairStrings(q[1..]);
      assert forall p :: p in q[1..] ==> p in q;
      SerializeAvoids(q[1..], c);
      assert q[0] in q;
    } else if |q| == 1 {
      assert q[0] in q;
    }
  }

  /** Everything `new URLSearchParams` produces can be written back; what the query lacks, its pairs lack. */
  lemma {:induction false} ParsePiecesAvoid(pieces: seq<string>, c: char)
    requires forall k :: 0 <= k < |pieces| ==> '&' !in pieces[k] && c !in pieces[k]
    ensures AllAvoid(ParsePieces(pieces), c)
    decreases |pieces|
  {
    if |pieces| > 0 {
      ParsePiecesAvoid(pieces[1..], c);
      var piece := pieces[0];
      var p := ParsePair(piece);
      var i := FindChar(piece, '=');
      assert forall x :: x in piece[..i] ==> x in piece;
      assert forall x :: x in piece[i..] ==> x in piece;
      if i < |piece| {
        assert forall x :: x in piece[i + 1..] ==> x in piece;
      }
    }
  }

  lemma {:induction false} SplitPiecesWithin(s: string, sep: char, c: char)
    requires c !in s
    ensures forall k :: 0 <= k < |Split(s, sep)| ==> c !in Split(s, sep)[k]
    decreases |s|
  {
    var i := FindChar(s, sep);
    if i < |s| {
      assert forall x :: x in s[i + 1..] ==> x in s;
      assert forall x :: x in s[..i] ==> x in s;
      SplitPiecesWithin(s[i + 1..], sep, c);
    }
  }

  lemma ParseAvoids(query: string, c: char)
    requires c !in query
    ensures AllAvoid(Parse(query), c)
  {
    SplitPiecesWithin(query, '&', c);
    ParsePiecesAvoid(Split(query, '&'), c);
  }

  // ---------------------------------------------------------------------------
  // Lookup, delete and set
  // ---------------------------------------------------------------------------

  /** The names of `q`, in order. */
  function Names(q: seq<Param>): (ns: seq<string>)
    ensures |ns| == |q|
    decreases |q|
  {
    if |q| == 0 then [] else [q[0].name] + Names(q[1..])
  }

  /** The set of names of `q`. */
  function NameSet(q: seq<Param>): set<string>
    decreases |q|
  {
    if |q| == 0 then {} else {q[0].name} + NameSet(q[1..])
  }

  /** `params.has(name)` */
  predicate Has(q: seq<Param>, name: string)
  {
    name in NameSet(q)
  }

  /** `params.get(name)`: the value of the first pair called `name`. */
  function Get(q: seq<Param>, name: string): Option<string>
    decreases |q|
  {
    if |q| == 0 then None
    else if q[0].name == name then Some(q[0].value)
    else Get(q[1..], name)
  }

  /** How many pairs are called `name`. */
  function CountName(q: seq<Param>, name: string): nat
    decreases |q|
  {
    if |q| == 0 then 0
    else if q[0].name == name then 1 + CountName(q[1..], name)
    else CountName(q[1..], name)
  }

  /** The index of the first pair called `name`, or `|q|`. */
  function FirstIndex(q: seq<Param>, name: string): (i: nat)
    ensures i <= |q|
    ensures i < |q| ==> q[i].name == name
    ensures forall j :: 0 <= j < i ==> q[j].name != name
    decreases |q|
  {
    if |q| == 0 then 0 else if q[0].name == name then 0 else 1 + FirstIndex(q[1..], name)
  }

  /** `params.delete(name)`: every pair called `name` removed, the rest in order. */
  function Without(q: seq<Param>, name: string): (r: seq<Param>)
    ensures |r| <= |q|
    decreases |q|
  {
    if |q| == 0 then []
    else if q[0].name == name then Without(q[1..], name)
    else [q[0]] + Without(q[1..], name)
  }

  lemma {:induction false} HasIffFirstIndex(q: seq<Param>, name: string)
    ensures Has(q, name) <==> FirstIndex(q, name) < |q|
    decreases |q|
  {
    if |q| > 0 {
      HasIffFirstIndex(q[1..], name);
    }
  }

  lemma {:induction false} WithoutTwice(q: seq<Param>, name: string)
    ensures Without(Without(q, name), name) == Without(q, name)
    decreases |q|
  {
    if |q| > 0 {
      WithoutTwice(q[1..], name);
    }
  }

  lemma {:induction false} CountNameWithout(q: seq<Param>, name: string, other: string)
    ensures CountName(Without(q, name), other) == if other == name then 0 else CountName(q, other)
    decreases |q|
  {
    if |q| > 0 {
      CountNameWithout(q[1..], name, other);
    }
  }

  lemma {:induction false} GetWithout(q: seq<Param>, name: string, other: string)
    ensures Get(Without(q, name), other) == if other == name then None else Get(q, other)
    decreases |q|
  {
    if |q| > 0 {
      GetWithout(q[1..], name, other);
    }
  }

  lemma {:induction false} WithoutCommutes(q: seq<Param>, a: string, b: string)
    ensures Without(Without(q, a), b) == Without(Without(q, b), a)
    decreases |q|
  {
    if |q| > 0 {
      WithoutCommutes(q[1..], a, b);
    }
  }

  /**
   `params.set(name, value)`: the first pair called `name` takes the new value
   and later ones are removed; without one, the pair is appended.
   */
  function Set(q: seq<Param>, name: string, value: string): (r: seq<Param>)
    ensures CountName(r, name) == 1
    ensures Get(r, name) == Some(value)
    ensures Without(r, name) == Without(q, name)
    decreases |q|
  {
    if |q| == 0 then [Param(name, value)]
    else if q[0].name == name then
      CountNameWithout(q[1..], name, name);
      WithoutTwice(q[1..], name);
      [Param(name, value)] + Without(q[1..], name)
    else
      [q[0]] + Set(q[1..], name, value)
  }

  /** Setting a name the query lacks appends one pair at the end. */
  lemma {:induction false} SetOfAbsent(q: seq<Param>, name: string, value: string)
    requires !Has(q, name)
    ensures Set(q, name, value) == q + [Param(name, value)]
    decreases |q|
  {
    if |q| > 0 {
      SetOfAbsent(q[1..], name, value);
      assert q == [q[0]] + q[1..];
    }
  }

  lemma SetAtMatch(q: seq<Param>, name: string, value: string)
    requires |q| > 0 && q[0].name == name
    ensures Set(q, name, value) == [Param(name, value)] + Without(q[1..], name)
  {
  }

  lemma SetPastOther(q: seq<Param>, name: string, value: string)
    requires |q| > 0 && q[0].name != name
    ensures Set(q, name, value) == [q[0]] + Set(q[1..], name, value)
    ensures FirstIndex(q, name) == 1 + FirstIndex(q[1..], name)
  {
  }

  /**
   Setting a name the query has rewrites its first pair in place and drops
   the later ones; everything before the first pair is untouched.
   */
  lemma {:induction false} SetOfPresent(q: seq<Param>, name: string, value: string, i: nat)
    requires i < |q| && i == FirstIndex(q, name)
    ensures Set(q, name, value) == q[..i] + [Param(name, value)] + Without(q[i + 1..], name)
    decreases |q|
  {
    var p := Param(name, value);
    if i > 0 {
      var t := q[1..];
      SetPastOther(q, name, value);
      SetOfPresent(t, name, value, i - 1);
      assert t[..i - 1] == q[1..i] && t[i..] == q[i + 1..];
      assert q[..i] == [q[0]] + q[1..i];
    } else {
      SetAtMatch(q, name, value);
      assert q[..0] + [p] == [p];
    }
  }

  /** One `set` after another, in order (the `forEach` over the options). */
  function SetEach(q: seq<Param>, updates: seq<Param>): seq<Param>
    decreases |updates|
  {
    if |updates| == 0 then q else SetEach(Set(q, updates[0].name, updates[0].value), updates[1..])
  }

  // ---------------------------------------------------------------------------
  // What a sequence of `set`s keeps and changes
  // ---------------------------------------------------------------------------

  /** Setting one name leaves the lookups and counts of every other name alone. */
  lemma SetKeepsOtherNames(q: seq<Param>, name: string, value: string, other: string)
    requires other != name
    ensures Get(Set(q, name, value), other) == Get(q, other)
    ensures CountName(Set(q, name, value), other) == CountName(q, other)
  {
    var r := Set(q, name, value);
    GetWithout(r, name, other);
    GetWithout(q, name, other);
    CountNameWithout(r, name, other);
    CountNameWithout(q, name, other);
  }

  lemma {:induction false} SetEachKeepsOtherNames(q: seq<Param>, updates: seq<Param>, other: string)
    requires forall k :: 0 <= k < |updates| ==> updates[k].name != other
    ensures Get(SetEach(q, updates), other) == Get(q, other)
    ensures CountName(SetEach(q, updates), other) == CountName(q, other)
    decreases |updates|
  {
    if |updates| > 0 {
      SetKeepsOtherNames(q, updates[0].name, updates[0].value, other);
      SetEachKeepsOtherNames(Set(q, updates[0].name, updates[0].value), updates[1..], other);
    }
  }

  predicate DistinctNames(updates: seq<Param>)
  {
    forall i, j :: 0 <= i < j < |updates| ==> updates[i].name != updates[j].name
  }

  /** After the `set`s, each name set occurs exactly once, with the value it was set to. */
  lemma {:induction false} SetEachValues(q: seq<Param>, updates: seq<Param>)
    requires DistinctNames(updates)
    ensures forall k :: 0 <= k < |updates| ==>
              Get(SetEach(q, updates), updates[k].name) == Some(updates[k].value)
              && CountName(SetEach(q, updates), updates[k].name) == 1
    decreases |updates|
  {
    if |updates| > 0 {
      var q' := Set(q, updates[0].name, updates[0].value);
      var rest := updates[1..];
      SetEachValues(q', rest);
      SetEachKeepsOtherNames(q', rest, updates[0].name);
      forall k | 1 <= k < |updates|
        ensures Get(SetEach(q, updates), updates[k].name) == Some(updates[k].value)
        ensures CountName(SetEach(q, updates), updates[k].name) == 1
      {
        assert rest[k - 1] == updates[k];
      }
    }
  }

  lemma {:induction false} WithoutMembers(q: seq<Param>, name: string)
    ensures forall p :: p in Without(q, name) <==> p in q && p.name != name
    decreases |q|
  {
    if |q| > 0 {
      WithoutMembers(q[1..], name);
      assert q == [q[0]] + q[1..];
    }
  }

  /** `set` adds no pair other than the one it writes. */
  lemma {:induction false} SetMembers(q: seq<Param>, name: string, value: string)
    ensures forall p :: p in Set(q, name, value) ==> p in q || p == Param(name, value)
    ensures Param(name, value) in Set(q, name, value)
    decreases |q|
  {
    if |q| > 0 {
      if q[0].name == name {
        WithoutMembers(q[1..], name);
      } else {
        SetMembers(q[1..], name, value);
      }
    }
  }

  /** Pairs that avoid `c` set into a query that avoids `c` keep it so. */
  lemma {:induction false} SetEachAvoids(q: seq<Param>, updates: seq<Param>, c: char)
    requires AllAvoid(q, c) && AllAvoid(updates, c)
    ensures AllAvoid(SetEach(q, updates), c)
    decreases |updates|
  {
    if |updates| > 0 {
      var u := updates[0];
      assert u in updates;
      SetMembers(q, u.name, u.value);
      assert forall p :: p in updates[1..] ==> p in updates;
      SetEachAvoids(Set(q, u.name, u.value), updates[1..], c);
    }
  }

  /** The pairs whose name is not in `names`, in order. */
  function Unrelated(q: seq<Param>, names: set<string>): seq<Param>
    decreases |q|
  {
    if |q| == 0 then []
    else if q[0].name in names then Unrelated(q[1..], names)
    else [q[0]] + Unrelated(q[1..], names)
  }

  lemma {:induction false} UnrelatedOfWithout(q: seq<Param>, name: string, names: set<string>)
    requires name in names
    ensures Unrelated(Without(q, name), names) == Unrelated(q, names)
    decreases |q|
  {
    if |q| > 0 {
      UnrelatedOfWithout(q[1..], name, names);
    }
  }

  /** The `set`s never touch, drop or reorder a pair whose name none of them sets. */
  lemma {:induction false} SetEachKeepsUnrelated(q: seq<Param>, updates: seq<Param>, names: set<string>)
    requires forall k :: 0 <= k < |updates| ==> updates[k].name in names
    ensures Unrelated(SetEach(q, updates), names) == Unrelated(q, names)
    decreases |updates|
  {
    if |updates| > 0 {
      var name := updates[0].name;
      var q' := Set(q, name, updates[0].value);
      UnrelatedOfWithout(q', name, names);
      UnrelatedOfWithout(q, name, names);
      SetEachKeepsUnrelated(q', updates[1..], names);
    }
  }

  // ---------------------------------------------------------------------------
  // Name order: existing names keep their place, new ones are appended
  // ---------------------------------------------------------------------------

  /** `s` without any copy of `x`. */
  function RemoveAll(s: seq<string>, x: string): (r: seq<string>)
    ensures |r| <= |s|
    ensures forall y :: y in r <==> y in s && y != x
    decreases |s|
  {
    if |s| == 0 then []
    else if s[0] == x then RemoveAll(s[1..], x)
    else [s[0]] + RemoveAll(s[1..], x)
  }

  /** The first occurrence of each name, in order of first appearance. */
  function FirstOccurrences(s: seq<string>): seq<string>
    decreases |s|
  {
    if |s| == 0 then [] else [s[0]] + FirstOccurrences(RemoveAll(s[1..], s[0]))
  }

  lemma {:induction false} RemoveAllTwice(s: seq<string>, x: string)
    ensures RemoveAll(RemoveAll(s, x), x) == RemoveAll(s, x)
    decreases |s|
  {
    if |s| > 0 {
      RemoveAllTwice(s[1..], x);
    }
  }

  lemma {:induction false} NamesWithout(q: seq<Param>, name: string)
    ensures Names(Without(q, name)) == RemoveAll(Names(q), name)
    decreases |q|
  {
    if |q| > 0 {
      NamesWithout(q[1..], name);
      assert Names(q)[1..] == Names(q[1..]);
      var head := if q[0].name == name then [] else [q[0]];
      assert Without(q, name) == head + Without(q[1..], name);
      assert Names(head + Without(q[1..], name)) == Names(head) + Names(Without(q[1..], name));
    }
  }

  lemma {:induction false} WithoutOfSet(q: seq<Param>, name: string, value: string, other: string)
    requires other != name
    ensures Without(Set(q, name, value), other) == Set(Without(q, other), name, value)
    decreases |q|
  {
    if |q| > 0 {
      if q[0].name == name {
        WithoutCommutes(q[1..], name, other);
      } else {
        WithoutOfSet(q[1..], name, value, other);
      }
    }
  }

  lemma {:induction false} NameSetWithout(q: seq<Param>, name: string)
    ensures NameSet(Without(q, name)) == NameSet(q) - {name}
    decreases |q|
  {
    if |q| > 0 {
      NameSetWithout(q[1..], name);
    }
  }

  lemma HasWithout(q: seq<Param>, name: string, other: string)
    requires other != name
    ensures Has(Without(q, other), name) <==> Has(q, name)
  {
    NameSetWithout(q, other);
  }

  lemma FirstOccurrencesOfRemoveAll(s: seq<string>, x: string)
    requires |s| > 0 && s[0] == x
    ensures FirstOccurrences(s) == [x] + FirstOccurrences(RemoveAll(s[1..], x))
  {
  }

  /** `set` leaves the order of first appearances alone, appending a new name at the end. */
  lemma {:induction false} SetKeepsNameOrder(q: seq<Param>, name: string, value: string)
    ensures FirstOccurrences(Names(Set(q, name, value)))
         == FirstOccurrences(Names(q)) + (if Has(q, name) then [] else [name])
    decreases |q|
  {
    var r := Set(q, name, value);
    if |q| == 0 {
      assert Names(r) == [name];
      assert FirstOccurrences([name]) == [name] + FirstOccurrences(RemoveAll([], name));
    } else if q[0].name == name {
      var rest := Without(q[1..], name);
      assert r == [Param(name, value)] + rest;
      assert Names(r) == [name] + Names(rest);
      NamesWithout(q[1..], name);
      RemoveAllTwice(Names(q[1..]), name);
      assert Names(q) == [name] + Names(q[1..]);
      assert Names(r)[1..] == Names(rest);
      assert Names(q)[1..] == Names(q[1..]);
      assert Has(q, name) by { assert Names(q)[0] == name; }
    } else {
      var m := q[0].name;
      var tail := Set(q[1..], name, value);
      assert r == [q[0]] + tail;
      assert Names(r) == [m] + Names(tail);
      assert Names(r)[1..] == Names(tail);
      assert Names(q) == [m] + Names(q[1..]);
      assert Names(q)[1..] == Names(q[1..]);
      // Removing `m` commutes with setting `name`.
      WithoutOfSet(q[1..], name, value, m);
      NamesWithout(tail, m);
      NamesWithout(q[1..], m);
      SetKeepsNameOrder(Without(q[1..], m), name, value);
      HasWithout(q[1..], name, m);
      assert Has(q, name) <==> Has(q[1..], name) by {
        assert Names(q) == [m] + Names(q[1..]);
      }
    }
  }

  /** The names of `updates` that neither `existing` nor an earlier update already has. */
  function NewNames(existing: set<string>, updates: seq<Param>): seq<string>
    decreases |updates|
  {
    if |updates| == 0 then []
    else if updates[0].name in existing then NewNames(existing, updates[1..])
    else [updates[0].name] + NewNames(existing + {updates[0].name}, updates[1..])
  }

  lemma {:induction false} NameSetOfSet(q: seq<Param>, name: string, value: string)
    ensures NameSet(Set(q, name, value)) == NameSet(q) + {name}
    decreases |q|
  {
    if |q| > 0 {
      if q[0].name == name {
        NameSetWithout(q[1..], name);
      } else {
        NameSetOfSet(q[1..], name, value);
      }
    }
  }

  /**
   After the `set`s, names the query already had keep their order of first
   appearance, and names it lacked follow, in the order they were first set.
   */
  lemma {:induction false} SetEachKeepsNameOrder(q: seq<Param>, updates: seq<Param>)
    ensures FirstOccurrences(Names(SetEach(q, updates)))
         == FirstOccurrences(Names(q)) + NewNames(NameSet(q), updates)
    decreases |updates|
  {
    if |updates| > 0 {
      var name := updates[0].name;
      var rest := updates[1..];
      var q' := Set(q, name, updates[0].value);
      var added := if name in NameSet(q) then [] else [name];
      calc {
        FirstOccurrences(Names(SetEach(q, updates)));
        FirstOccurrences(Names(SetEach(q', rest)));
        { SetEachKeepsNameOrder(q', rest); }
        FirstOccurrences(Names(q')) + NewNames(NameSet(q'), rest);
        { SetKeepsNameOrder(q, name, updates[0].value);
          NameSetOfSet(q, name, updates[0].value); }
        (FirstOccurrences(Names(q)) + added) + NewNames(NameSet(q) + {name}, rest);
        FirstOccurrences(Names(q)) + (added + NewNames(NameSet(q) + {name}, rest));
        { NewNamesStep(NameSet(q), updates); }
        FirstOccurrences(Names(q)) + NewNames(NameSet(q), updates);
      }
    }
  }

  lemma NewNamesStep(existing: set<string>, updates: seq<Param>)
    requires |updates| > 0
    ensures NewNames(existing, updates)
         == (if updates[0].name in existing then [] else [updates[0].name])
          + NewNames(existing + {updates[0].name}, updates[1..])
  {
    if updates[0].name in existing {
      assert existing + {updates[0].name} == existing;
      assert [] + NewNames(existing, updates[1..]) == NewNames(existing, updates[1..]);
    }
  }

  lemma {:induction false} NamesInNameSet(q: seq<Param>)
    ensures forall k :: 0 <= k < |q| ==> q[k].name in NameSet(q)
    decreases |q|
  {
    if |q| > 0 {
      NamesInNameSet(q[1..]);
      assert forall k :: 1 <= k < |q| ==> q[k] == q[1..][k - 1];
    }
  }
}
