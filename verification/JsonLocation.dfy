/**
 Where a list of tokens leads in a tree, said without walking: an array is entered at the index
 that RFC 6901 gives the token, an object at the pair that has the token as its key.
 json_pointer_get finds exactly what lies there.
 */
module JsonLocation {
  import opened Bytes
  import opened OrderedMap
  import opened JsonValue
  import opened JsonPointer

  /** x lies in v at the location of the tokens; a null item of an array counts as missing. */
  ghost predicate Lies(v: Value, tokens: seq<seq<byte>>, x: Value)
    decreases |tokens|
  {
    if tokens == [] then x == v
    else
      match v
      case Arr(items) =>
        exists i: nat ::
          i < |items| && RfcIndex(tokens[0], |items|) == Index.At(i) && items[i] != Null && Lies(items[i], tokens[1..], x)
      case Obj(fields) => exists f <- fields :: f.key == tokens[0] && Lies(f.value, tokens[1..], x)
      case _ => false
  }

  /** Every object has each of its keys once. */
  ghost predicate KeyedOnce(v: Value) {
    match v
    case Arr(items) => forall x <- items :: KeyedOnce(x)
    case Obj(fields) => UniqueKeys(fields) && forall f <- fields :: KeyedOnce(f.value)
    case _ => true
  }

  /** Wherever the tokens may meet an array, is_valid_index reads them as the RFC does. */
  ghost predicate ReadableIn(v: Value, tokens: seq<seq<byte>>)
    decreases |tokens|
  {
    tokens == [] ||
    match v
    case Arr(items) => ReadRight(tokens[0], |items|) && forall x <- items :: ReadableIn(x, tokens[1..])
    case Obj(fields) => forall f <- fields :: ReadableIn(f.value, tokens[1..])
    case _ => true
  }

  /** A key finds the value of its pair, and nothing if and only if no pair has it. */
  lemma KeyFinds(fields: seq<Pair<Key, Value>>, k: Key)
    requires UniqueKeys(fields)
    ensures var r := Get(Obj(fields), Path([k]));
            && (forall f <- fields :: f.key == k ==> r == Ok(f.value))
            && (r == NoEntry <==> forall f <- fields :: f.key != k)
  {
    PathOfOne(Obj(fields), k);
    PairFound(fields, k);
    hide Get, Path;
  }

  lemma PathOfOne(v: Value, t: seq<byte>)
    ensures Get(v, Path([t])) == if v == Null then Invalid else Child(v, t)
  {
    GetWalks(v, [t]);
    assert Walk(v, [t]) == var c := Child(v, t); if c.Ok? then Walk(c.value, []) else c;
  }

  lemma PairFound(fields: seq<Pair<Key, Value>>, k: Key)
    requires UniqueKeys(fields)
    ensures forall f <- fields :: f.key == k ==> Child(Obj(fields), k) == Ok(f.value)
    ensures Child(Obj(fields), k) == NoEntry <==> forall f <- fields :: f.key != k
  {
    forall f <- fields | f.key == k ensures Child(Obj(fields), k) == Ok(f.value) {
      var i :| 0 <= i < |fields| && fields[i] == f;
      FindUnique(fields, k, i);
    }
    var j := Find(fields, k);
    assert j >= 0 ==> fields[j] in fields;
  }

  /** An index finds its item; a malformed index and a missing item are told apart. */
  lemma ItemFinds(items: seq<Value>, t: seq<byte>)
    requires ReadRight(t, |items|)
    ensures Get(Arr(items), Path([t]))
            == match RfcIndex(t, |items|)
               case At(i) => if i < |items| && items[i] != Null then Ok(items[i]) else NoEntry
               case BadIndex => Invalid
               case OutOfBounds => NoEntry
  {
    PathOfOne(Arr(items), t);
    IndexIsRfc(t, |items|);
    hide Get, Path, RfcIndex, ReadRight;
  }

  /** json_pointer_get finds a value if and only if it lies at the location of the tokens. */
  lemma GetLocates(v: Value, tokens: seq<seq<byte>>, x: Value)
    requires v != Null && KeyedOnce(v) && ReadableIn(v, tokens)
    ensures Get(v, Path(tokens)) == Ok(x) <==> Lies(v, tokens, x)
  {
    GetWalks(v, tokens);
    WalkLocates(v, tokens, x);
  }

  lemma {:induction false} WalkLocates(v: Value, tokens: seq<seq<byte>>, x: Value)
    requires KeyedOnce(v) && ReadableIn(v, tokens)
    ensures Walk(v, tokens) == Ok(x) <==> Lies(v, tokens, x)
    decreases |tokens|
  {
    if tokens != [] {
      match v
      case Arr(items) => ItemLocates(items, tokens, x);
      case Obj(fields) => PairLocates(fields, tokens, x);
      case _ =>
    }
  }

  lemma {:induction false} ItemLocates(items: seq<Value>, tokens: seq<seq<byte>>, x: Value)
    requires tokens != [] && KeyedOnce(Arr(items)) && ReadableIn(Arr(items), tokens)
    ensures Walk(Arr(items), tokens) == Ok(x) <==> Lies(Arr(items), tokens, x)
    decreases |tokens|, 0
  {
    IndexIsRfc(tokens[0], |items|);
    var i := RfcIndex(tokens[0], |items|);
    hide RfcIndex, ReadRight, ValidIndex;
    if i.At? {
      assert items[i.idx] in items;
      WalkLocates(items[i.idx], tokens[1..], x);
    }
  }

  lemma {:induction false} PairLocates(fields: seq<Pair<Key, Value>>, tokens: seq<seq<byte>>, x: Value)
    requires tokens != [] && KeyedOnce(Obj(fields)) && ReadableIn(Obj(fields), tokens)
    ensures Walk(Obj(fields), tokens) == Ok(x) <==> Lies(Obj(fields), tokens, x)
    decreases |tokens|, 0
  {
    PairFound(fields, tokens[0]);
    forall f <- fields | f.key == tokens[0] ensures Walk(f.value, tokens[1..]) == Ok(x) <==> Lies(f.value, tokens[1..], x) {
      WalkLocates(f.value, tokens[1..], x);
    }
    hide Child;
  }

  /** The same for the loops as written. */
  method Locate(v: Value, tokens: seq<seq<byte>>) returns (r: Found)
    requires v != Null && KeyedOnce(v) && ReadableIn(v, tokens) && forall t <- tokens :: 0 !in t
    ensures forall x :: r == Ok(x) <==> Lies(v, tokens, x)
  {
    r := GetTokens(v, tokens);
    forall x ensures Walk(v, tokens) == Ok(x) <==> Lies(v, tokens, x) {
      WalkLocates(v, tokens, x);
    }
    hide Walk, Lies;
  }
}
