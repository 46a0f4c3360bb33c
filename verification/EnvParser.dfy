/** The environment option: key="value" or key=value, separated by commas (config/config.go:338-382). */
module EnvParser {
  import opened Text
  import opened TextProof

  type Env = map<string, string>

  /** The first c of s from position i on, or the end of s. */
  function Scan(s: string, i: nat, c: char): (k: nat)
    requires i <= |s|
    ensures i <= k <= |s| && (k < |s| ==> s[k] == c)
    decreases |s| - i
  {
    if i < |s| && s[i] != c then Scan(s, i + 1, c) else i
  }

  lemma {:induction false} ScanFirst(s: string, i: nat, c: char)
    requires i <= |s|
    ensures forall j | i <= j < Scan(s, i, c) :: s[j] != c
    decreases |s| - i
  {
    if i < |s| && s[i] != c {
      ScanFirst(s, i + 1, c);
    }
  }

  lemma {:induction false} ScanIs(s: string, i: nat, c: char, k: nat)
    requires i <= k <= |s| && (k < |s| ==> s[k] == c) && forall j | i <= j < k :: s[j] != c
    ensures Scan(s, i, c) == k
    decreases k - i
  {
    if i < k {
      ScanIs(s, i + 1, c, k);
    }
  }

  lemma ScanSuffix(s: string, from: nat, i: nat, c: char)
    requires from <= i <= |s|
    ensures Scan(s, i, c) == from + Scan(s[from..], i - from, c)
  {
    var k := Scan(s[from..], i - from, c);
    ScanFirst(s[from..], i - from, c);
    forall j | i <= j < from + k
      ensures s[j] != c
    {
      assert s[from..][j - from] == s[j];
    }
    ScanIs(s, i, c, from + k);
  }

  datatype Pair = Pair(key: string, value: string)

  predicate CommaAt(s: string, i: nat) {
    i < |s| && s[i] == ','
  }

  /** The pairs that a text defines, as written. */
  function Pairs(u: string): seq<Pair>
    decreases |u|, 1
  {
    var i := Scan(u, 0, '=');
    if i + 1 >= |u| then [] else PairsOf(u[..i], u[i + 1..])
  }

  /** The same, behind a key and its equals sign. */
  function PairsOf(key: string, v: string): seq<Pair>
    requires v != ""
    decreases |v|, 0
  {
    if v[0] == '"' then
      var k := Scan(v, 1, '"');
      if k == |v| then []
      else [Pair(key, v[1..k])] + if CommaAt(v, k + 1) then Pairs(v[k + 2..]) else []
    else
      var k := Scan(v, 0, ',');
      [Pair(key, v[..k])] + if k < |v| then Pairs(v[k + 1..]) else []
  }

  function Put(env: Env, p: Pair): Env {
    env[Trim(p.key) := Trim(p.value)]
  }

  /** Storing pairs in order, trimmed: a key that comes again is overwritten. */
  function Stored(env: Env, pairs: seq<Pair>): Env
    decreases |pairs|
  {
    if pairs == [] then env else Stored(Put(env, pairs[0]), pairs[1..])
  }

  lemma StoredFirst(env: Env, p: Pair, pairs: seq<Pair>)
    ensures Stored(env, [p] + pairs) == Stored(Put(env, p), pairs)
  {
    assert ([p] + pairs)[1..] == pairs;
  }

  method ScanFor(s: string, start: nat, c: char) returns (i: nat)
    requires start <= |s|
    ensures i == Scan(s, start, c)
  {
    i := start;
    while i < |s| && s[i] != c
      invariant start <= i <= |s| && Scan(s, i, c) == Scan(s, start, c)
    {
      i := i + 1;
    }
  }

  /** What is left to be stored, if the loop goes on with the text rest. */
  function Left(rest: string, more: bool): seq<Pair> {
    if more then Pairs(rest) else []
  }

  function After(s: string, i: nat): string {
    if i < |s| then s[i + 1..] else ""
  }

  lemma Cut(s: string, start: nat, lo: nat, k: nat)
    requires start <= lo <= k <= |s|
    ensures s[start..][lo - start..k - start] == s[lo..k]
    ensures After(s[start..], k - start) == After(s, k)
  {
  }

  lemma QuotedPairsOf(key: string, v: string, k: nat)
    requires v != "" && v[0] == '"' && k == Scan(v, 1, '"')
    ensures PairsOf(key, v) == if k == |v| then [] else [Pair(key, v[1..k])] + Left(After(v, k + 1), CommaAt(v, k + 1))
  {
  }

  lemma CutQuoted(s: string, v: string, start: nat, k: nat)
    requires start < k <= |s| && v == s[start..]
    ensures v[1..k - start] == s[start + 1..k]
    ensures CommaAt(v, k - start + 1) == CommaAt(s, k + 1) && After(v, k - start + 1) == After(s, k + 1)
  {
  }

  lemma QuotedPairs(s: string, key: string, v: string, start: nat, k: nat)
    requires start < |s| && s[start] == '"' && k == Scan(s, start + 1, '"') && v == s[start..]
    ensures PairsOf(key, v) ==
            if k == |s| then [] else [Pair(key, s[start + 1..k])] + Left(After(s, k + 1), CommaAt(s, k + 1))
  {
    ScanSuffix(s, start, start + 1, '"');
    QuotedPairsOf(key, v, k - start);
    CutQuoted(s, v, start, k);
  }

  lemma BarePairsOf(key: string, v: string, k: nat)
    requires v != "" && v[0] != '"' && k == Scan(v, 0, ',')
    ensures PairsOf(key, v) == [Pair(key, v[..k])] + Left(After(v, k), k < |v|)
  {
  }

  lemma BarePairs(s: string, key: string, v: string, start: nat, k: nat)
    requires start < |s| && s[start] != '"' && k == Scan(s, start, ',') && v == s[start..]
    ensures PairsOf(key, v) == [Pair(key, s[start..k])] + Left(After(s, k), k < |s|)
  {
    ScanSuffix(s, start, start, ',');
    BarePairsOf(key, v, k - start);
    Cut(s, start, start, k);
    assert v[0..k - start] == v[..k - start];
  }

  /**
    The part of the loop behind an equals sign: what the value adds to the map, and where the scan
    goes on, if it does.
   */
  method ParseValue(s: string, key: string, start: nat, env: Env, ghost v: string)
    returns (result: Env, next: nat, more: bool, ghost rest: string)
    requires start < |s| && v == s[start..]
    ensures start <= next <= |s| && rest == s[next..] && (more ==> start < next)
    ensures Stored(env, PairsOf(key, v)) == Stored(result, Left(rest, more))
  {
    result, next, more, rest := env, start, false, v;
    if s[start] == '"' {
      var i := ScanFor(s, start + 1, '"');
      QuotedPairs(s, key, v, start, i);
      if i < |s| {
        result := Put(env, Pair(key, s[start + 1..i]));
        StoredFirst(env, Pair(key, s[start + 1..i]), Left(After(s, i + 1), CommaAt(s, i + 1)));
      }
      if CommaAt(s, i + 1) {
        next, more, rest := i + 2, true, After(s, i + 1);
      }
    } else {
      var i := ScanFor(s, start, ',');
      BarePairs(s, key, v, start, i);
      StoredFirst(env, Pair(key, s[start..i]), Left(After(s, i), i < |s|));
      result := Put(env, Pair(key, s[start..i]));
      if i < |s| {
        next, more, rest := i + 1, true, After(s, i);
      }
    }
  }

  /** Where the scan for an equals sign leads. */
  lemma PairsAt(s: string, u: string, start: nat, i: nat) returns (v: string)
    requires start <= |s| && i == Scan(s, start, '=') && u == s[start..]
    ensures i + 1 >= |s| ==> Pairs(u) == []
    ensures i + 1 < |s| ==> v == s[i + 1..] && Pairs(u) == PairsOf(s[start..i], v)
  {
    v := "";
    ScanSuffix(s, start, start, '=');
    if i + 1 < |s| {
      v := s[i + 1..];
      assert u[i - start + 1..] == v && u[..i - start] == s[start..i];
    }
  }

  /** parseEnv always comes to an end, on any text. */
  method ParseEnv(s: string) returns (result: Env)
    ensures result == Stored(map[], Pairs(s))
  {
    result := map[];
    var start, more := 0, true;
    ghost var u := s;
    while more
      invariant start <= |s| && u == s[start..]
      invariant Stored(result, Left(u, more)) == Stored(map[], Pairs(s))
      decreases |s| - start, more
    {
      var i := ScanFor(s, start, '=');
      ghost var v := PairsAt(s, u, start, i);
      if start >= |s| || i + 1 >= |s| {
        break;
      }
      result, start, more, u := ParseValue(s, s[start..i], i + 1, result, v);
    }
  }

  // ---------------------------------------------------------------- printing

  datatype Item = QuotedItem(key: string, value: string) | BareItem(key: string, value: string)

  function Printed(item: Item): string {
    match item
    case QuotedItem(key, value) => key + "=" + "\"" + value + "\""
    case BareItem(key, value) => key + "=" + value
  }

  function Joined(items: seq<Item>): string
    requires items != []
  {
    if |items| == 1 then Printed(items[0]) else Printed(items[0]) + "," + Joined(items[1..])
  }

  /** Can its key and its value be told from what stands around them? */
  predicate Readable(item: Item) {
    && '=' !in item.key
    && match item
       case QuotedItem(_, value) => '"' !in value
       case BareItem(_, value) => ',' !in value && (value == "" || value[0] != '"')
  }

  function PairOf(item: Item): Pair {
    Pair(item.key, item.value)
  }

  function AllPairs(items: seq<Item>): seq<Pair> {
    if items == [] then [] else [PairOf(items[0])] + AllPairs(items[1..])
  }

  predicate EmptyBare(item: Item) {
    item.BareItem? && item.value == ""
  }

  lemma KeyRead(key: string, v: string)
    requires '=' !in key
    ensures Pairs(key + "=" + v) == if v == "" then [] else PairsOf(key, v)
  {
    var u := key + "=" + v;
    forall j | 0 <= j < |key|
      ensures u[j] != '='
    {
      assert u[j] == key[j];
    }
    ScanIs(u, 0, '=', |key|);
    assert u[..|key|] == key && u[|key| + 1..] == v;
  }

  lemma QuotedRead(key: string, value: string, rest: string)
    requires '"' !in value
    ensures PairsOf(key, "\"" + value + "\"" + rest) ==
            [Pair(key, value)] + if rest != "" && rest[0] == ',' then Pairs(rest[1..]) else []
  {
    var v := "\"" + value + "\"" + rest;
    forall j | 1 <= j < |value| + 1
      ensures v[j] != '"'
    {
      assert v[j] == value[j - 1];
    }
    ScanIs(v, 1, '"', |value| + 1);
    assert v[1..|value| + 1] == value;
    if rest != "" {
      assert v[|value| + 2] == rest[0] && v[|value| + 3..] == rest[1..];
    }
  }

  lemma BareRead(key: string, value: string, rest: string)
    requires ',' !in value && (value == "" || value[0] != '"')
    requires value + rest != "" && (rest == "" || rest[0] == ',')
    ensures PairsOf(key, value + rest) == [Pair(key, value)] + if rest != "" then Pairs(rest[1..]) else []
  {
    var v := value + rest;
    BareScan(value, rest);
    assert v[..|value|] == value;
    if rest != "" {
      assert v[|value| + 1..] == rest[1..];
    }
  }

  lemma BareScan(value: string, rest: string)
    requires ',' !in value && (value == "" || value[0] != '"')
    requires value + rest != "" && (rest == "" || rest[0] == ',')
    ensures Scan(value + rest, 0, ',') == |value| && (value + rest)[0] != '"'
  {
    var v := value + rest;
    forall j | 0 <= j < |value|
      ensures v[j] != ','
    {
      assert v[j] == value[j];
    }
    ScanIs(v, 0, ',', |value|);
  }

  lemma QuotedItemRead(key: string, value: string, rest: string)
    requires '=' !in key && '"' !in value
    ensures Pairs(Printed(QuotedItem(key, value)) + rest) ==
            [Pair(key, value)] + if rest != "" && rest[0] == ',' then Pairs(rest[1..]) else []
  {
    var v := "\"" + value + "\"" + rest;
    assert Printed(QuotedItem(key, value)) + rest == key + "=" + v;
    KeyRead(key, v);
    QuotedRead(key, value, rest);
  }

  lemma BareItemRead(key: string, value: string, rest: string)
    requires Readable(BareItem(key, value)) && (rest == "" || rest[0] == ',')
    ensures Pairs(Printed(BareItem(key, value)) + rest) ==
            if value + rest == "" then [] else [Pair(key, value)] + if rest != "" then Pairs(rest[1..]) else []
  {
    assert Printed(BareItem(key, value)) + rest == key + "=" + (value + rest);
    KeyRead(key, value + rest);
    if value + rest != "" {
      BareRead(key, value, rest);
    }
  }

  /** An item is read as it was printed in front of a comma. */
  lemma ItemReadOn(item: Item, rest: string)
    requires Readable(item)
    ensures Pairs(Printed(item) + ("," + rest)) == [PairOf(item)] + Pairs(rest)
  {
    assert ("," + rest)[1..] == rest;
    match item
    case QuotedItem(key, value) => QuotedItemRead(key, value, "," + rest);
    case BareItem(key, value) => BareItemRead(key, value, "," + rest);
  }

  /** So it is at the end, but for an empty one. */
  lemma LastItemRead(item: Item)
    requires Readable(item)
    ensures Pairs(Printed(item)) == if EmptyBare(item) then [] else [PairOf(item)]
  {
    assert Printed(item) + "" == Printed(item);
    match item
    case QuotedItem(key, value) => QuotedItemRead(key, value, "");
    case BareItem(key, value) =>
      BareItemRead(key, value, "");
      assert value + "" == value;
  }

  lemma JoinedCons(items: seq<Item>)
    requires |items| > 1
    ensures Joined(items) == Printed(items[0]) + ("," + Joined(items[1..]))
  {
  }

  lemma JoinedRead(items: seq<Item>)
    requires |items| > 1 && Readable(items[0])
    ensures Pairs(Joined(items)) == [PairOf(items[0])] + Pairs(Joined(items[1..]))
  {
    JoinedCons(items);
    ItemReadOn(items[0], Joined(items[1..]));
  }

  predicate AllReadable(items: seq<Item>) {
    forall i | 0 <= i < |items| :: Readable(items[i])
  }

  predicate ComesBack(items: seq<Item>)
    requires items != []
  {
    Pairs(Joined(items)) == AllPairs(items)
  }

  lemma RestDecides(items: seq<Item>)
    requires |items| > 1 && Readable(items[0])
    ensures ComesBack(items) <==> ComesBack(items[1..])
  {
    var x, p, q := PairOf(items[0]), Pairs(Joined(items[1..])), AllPairs(items[1..]);
    JoinedRead(items);
    assert ([x] + p)[1..] == p && ([x] + q)[1..] == q;
  }

  lemma LastComesBack(item: Item)
    requires Readable(item)
    ensures ComesBack([item]) <==> !EmptyBare(item)
  {
    LastItemRead(item);
    assert AllPairs([item]) == [PairOf(item)] + AllPairs([]);
  }

  /** Items come back as they were printed, if and only if the last of them is not bare and empty. */
  lemma {:induction false} ItemsRoundTrip(items: seq<Item>)
    requires items != [] && AllReadable(items)
    ensures Pairs(Joined(items)) == AllPairs(items) <==> !EmptyBare(items[|items| - 1])
    decreases |items|
  {
    if |items| == 1 {
      assert items == [items[0]];
      LastComesBack(items[0]);
    } else {
      RestDecides(items);
      ItemsRoundTrip(items[1..]);
    }
  }

  /** Whatever follows a closing quote other than a comma is dropped with everything behind it. */
  lemma DroppedBehindQuote(key: string, value: string, rest: string)
    requires '=' !in key && '"' !in value && rest != "" && rest[0] != ','
    ensures Pairs(Printed(QuotedItem(key, value)) + rest) == [Pair(key, value)]
  {
    QuotedItemRead(key, value, rest);
  }

  /** A quote that is never closed: its key gets no value. */
  lemma UnclosedIsDropped(key: string, value: string)
    requires '=' !in key && '"' !in value
    ensures Pairs(key + "=" + ("\"" + value)) == []
  {
    var v := "\"" + value;
    KeyRead(key, v);
    forall j | 1 <= j < |v|
      ensures v[j] != '"'
    {
      assert v[j] == value[j - 1];
    }
    ScanIs(v, 1, '"', |v|);
  }

  /** Without an equals sign, or with one at the very end, there is no pair. */
  lemma NoPairs(key: string)
    requires '=' !in key
    ensures Pairs(key) == [] && Pairs(key + "=" + "") == []
  {
    ScanIs(key, 0, '=', |key|);
    KeyRead(key, "");
  }

  // ---------------------------------------------------------------- printing a map

  /** How each key and its value are written. */
  type Spelling = map<string, Pair>

  /** The text with white space around it, or none. */
  ghost predicate IsAround(s: string, t: string) {
    IsTrimmed(t) && exists a, b :: IsBlank(a) && IsBlank(b) && s == a + t + b
  }

  /** Keys and values are written with any white space around them. */
  ghost predicate Spells(w: Spelling, m: Env) {
    forall k | k in m :: k in w && '=' !in w[k].key && '"' !in w[k].value && IsAround(w[k].key, k) && IsAround(w[k].value, m[k])
  }

  function Quoted(w: Spelling, keys: seq<string>): seq<Item>
    requires forall k | k in keys :: k in w
  {
    if keys == [] then [] else [QuotedItem(w[keys[0]].key, w[keys[0]].value)] + Quoted(w, keys[1..])
  }

  lemma PutTrims(env: Env, p: Pair, key: string, value: string)
    requires IsAround(p.key, key) && IsAround(p.value, value)
    ensures Put(env, p) == env[key := value]
  {
    TrimIff(p.key, key);
    TrimIff(p.value, value);
  }

  lemma {:induction false} StoredAll(env: Env, m: Env, w: Spelling, keys: seq<string>)
    requires Spells(w, m) && forall k | k in keys :: k in m
    ensures Stored(env, AllPairs(Quoted(w, keys))) == env + map k | k in keys :: m[k]
    decreases |keys|
  {
    if keys != [] {
      var k, more := keys[0], keys[1..];
      StoredFirst(env, w[k], AllPairs(Quoted(w, more)));
      QuotedFirst(w, keys);
      PutTrims(env, w[k], k, m[k]);
      StoredAll(env[k := m[k]], m, w, more);
      UpdateFirst(env, m, keys);
    }
  }

  lemma UpdateFirst(env: Env, m: Env, keys: seq<string>)
    requires keys != [] && forall k | k in keys :: k in m
    ensures env[keys[0] := m[keys[0]]] + (map k | k in keys[1..] :: m[k]) == env + map k | k in keys :: m[k]
  {
    assert keys == [keys[0]] + keys[1..];
  }

  lemma {:induction false} QuotedReadable(w: Spelling, keys: seq<string>)
    requires forall k | k in keys :: k in w && '=' !in w[k].key && '"' !in w[k].value
    ensures |Quoted(w, keys)| == |keys| && forall i | 0 <= i < |keys| :: Readable(Quoted(w, keys)[i]) && Quoted(w, keys)[i].QuotedItem?
    decreases |keys|
  {
    if keys != [] {
      QuotedReadable(w, keys[1..]);
    }
  }

  lemma QuotedFirst(w: Spelling, keys: seq<string>)
    requires keys != [] && forall k | k in keys :: k in w
    ensures AllPairs(Quoted(w, keys)) == [w[keys[0]]] + AllPairs(Quoted(w, keys[1..]))
  {
    assert Quoted(w, keys)[1..] == Quoted(w, keys[1..]);
  }

  lemma QuotedRoundTrip(w: Spelling, keys: seq<string>)
    requires keys != [] && forall k | k in keys :: k in w && '=' !in w[k].key && '"' !in w[k].value
    ensures Pairs(Joined(Quoted(w, keys))) == AllPairs(Quoted(w, keys))
  {
    QuotedReadable(w, keys);
    ItemsRoundTrip(Quoted(w, keys));
  }

  /** A map of trimmed keys and values printed in any order as key="value", with any white space around both, is parsed back. */
  lemma MapRoundTrip(m: Env, w: Spelling, keys: seq<string>)
    requires keys != [] && (forall k :: k in keys <==> k in m) && Spells(w, m)
    ensures Stored(map[], Pairs(Joined(Quoted(w, keys)))) == m
  {
    QuotedRoundTrip(w, keys);
    StoredAll(map[], m, w, keys);
    AllKeys(m, keys);
  }

  lemma AllKeys(m: Env, keys: seq<string>)
    requires forall k :: k in keys <==> k in m
    ensures map[] + (map k | k in keys :: m[k]) == m
  {
  }
}
