/** Printing and parsing cache keys: parts joined by, and split at, underscores. */
module KeyNames {

  /** `"_".join(parts)`. */
  function Join(parts: seq<string>): string
    requires |parts| >= 1
  {
    if |parts| == 1 then parts[0] else parts[0] + ['_'] + Join(parts[1..])
  }

  /** `key.split("_")`. */
  function Split(key: string): (parts: seq<string>)
    ensures |parts| >= 1
  {
    if key == [] then [[]]
    else
      var rest := Split(key[1..]);
      if key[0] == '_' then [[]] + rest else [[key[0]] + rest[0]] + rest[1..]
  }

  predicate Whole(part: string) {
    '_' !in part
  }

  predicate AllWhole(parts: seq<string>) {
    forall i :: 0 <= i < |parts| ==> Whole(parts[i])
  }

  lemma {:induction false} SplitIsWhole(key: string)
    ensures AllWhole(Split(key))
  {
    if key != [] {
      SplitIsWhole(key[1..]);
    }
  }

  /** Joining what was split gives the key back. */
  lemma {:induction false} JoinOfSplit(key: string)
    ensures Join(Split(key)) == key
  {
    if key != [] {
      var rest := Split(key[1..]);
      JoinOfSplit(key[1..]);
      assert key == [key[0]] + key[1..];
      if key[0] == '_' {
        assert Split(key)[1..] == rest;
      } else {
        assert Split(key)[1..] == rest[1..];
      }
    }
  }

  /** The first character of a key, put in front of what splits the rest. */
  function Prepended(c: char, parts: seq<string>): seq<string>
    requires |parts| >= 1
  {
    if c == '_' then [[]] + parts else [[c] + parts[0]] + parts[1..]
  }

  lemma SplitPrepends(c: char, key: string)
    ensures Split([c] + key) == Prepended(c, Split(key))
  {
    assert ([c] + key)[1..] == key;
  }

  lemma PrependedAppends(c: char, parts: seq<string>, more: seq<string>)
    requires |parts| >= 1
    ensures Prepended(c, parts + more) == Prepended(c, parts) + more
  {
    assert (parts + more)[1..] == parts[1..] + more;
  }

  lemma {:induction false} SplitAtUnderscore(part: string, key: string)
    ensures Split(part + ['_'] + key) == Split(part) + Split(key)
  {
    if part == [] {
      SplitPrepends('_', key);
      assert [] + ['_'] + key == ['_'] + key;
    } else {
      var c, rest := part[0], part[1..];
      SplitAtUnderscore(rest, key);
      SplitPrepends(c, rest + ['_'] + key);
      SplitPrepends(c, rest);
      PrependedAppends(c, Split(rest), Split(key));
      assert [c] + rest == part;
      assert [c] + (rest + ['_'] + key) == part + ['_'] + key;
    }
  }

  lemma {:induction false} SplitOfWhole(part: string)
    ensures Split(part) == [part] <==> Whole(part)
    ensures |Split(part)| == 1 <==> Whole(part)
  {
    if part != [] {
      SplitOfWhole(part[1..]);
      assert part == [part[0]] + part[1..];
    }
  }

  /** Splitting what was joined gives the parts back exactly when no part has an underscore;
      otherwise it gives more parts. */
  lemma {:induction false} SplitOfJoin(parts: seq<string>)
    requires |parts| >= 1
    ensures Split(Join(parts)) == parts <==> AllWhole(parts)
    ensures |Split(Join(parts))| >= |parts|
    ensures |Split(Join(parts))| == |parts| <==> AllWhole(parts)
  {
    SplitOfWhole(parts[0]);
    if |parts| > 1 {
      SplitOfJoin(parts[1..]);
      SplitAtUnderscore(parts[0], Join(parts[1..]));
      assert parts == [parts[0]] + parts[1..];
      assert AllWhole(parts) <==> Whole(parts[0]) && AllWhole(parts[1..]);
      if !AllWhole(parts) {
        assert |Split(parts[0])| + |Split(Join(parts[1..]))| > |parts|;
      }
    }
  }

  // ----- keys of cached responses -----

  /** The key for a response: prefix, batch, theme and language. */
  function KeyFor(prefix: string, batch: string, theme: string, lan: string): string {
    prefix + ['_'] + Join([batch, theme, lan])
  }

  /** The key a rebuild writes to, from the second to fourth part of the key it was given. */
  function RebuiltKey(prefix: string, key: string): string
    requires |Split(key)| >= 4
  {
    KeyFor(prefix, Split(key)[1], Split(key)[2], Split(key)[3])
  }

  predicate WellFormed(prefix: string, key: string) {
    |Split(key)| == 4 && Split(key)[0] == prefix
  }

  lemma KeyIsJoin(prefix: string, batch: string, theme: string, lan: string)
    ensures KeyFor(prefix, batch, theme, lan) == Join([prefix, batch, theme, lan])
  {
    assert [prefix, batch, theme, lan][1..] == [batch, theme, lan];
  }

  /** A rebuild writes to the key it was given exactly when that has four parts, the first being
      the prefix. */
  lemma RebuildsInPlaceExactly(prefix: string, key: string)
    requires Whole(prefix) && |Split(key)| >= 4
    ensures RebuiltKey(prefix, key) == key <==> WellFormed(prefix, key)
  {
    var p := Split(key);
    var parts := [prefix, p[1], p[2], p[3]];
    SplitIsWhole(key);
    KeyIsJoin(prefix, p[1], p[2], p[3]);
    SplitOfJoin(parts);
    JoinOfSplit(key);
    if WellFormed(prefix, key) {
      assert parts == p;
    }
  }

  /** A key made for a batch, theme and language is rebuilt as itself, from those three, exactly
      when none of them has an underscore. */
  lemma KeyRoundTripExactly(prefix: string, batch: string, theme: string, lan: string)
    requires Whole(prefix)
    ensures
      var key := KeyFor(prefix, batch, theme, lan);
      && |Split(key)| >= 4
      && (RebuiltKey(prefix, key) == key <==> Whole(batch) && Whole(theme) && Whole(lan))
      && (RebuiltKey(prefix, key) == key ==>
            Split(key)[1] == batch && Split(key)[2] == theme && Split(key)[3] == lan)
  {
    var key, parts := KeyFor(prefix, batch, theme, lan), [prefix, batch, theme, lan];
    KeyIsJoin(prefix, batch, theme, lan);
    SplitOfJoin(parts);
    RebuildsInPlaceExactly(prefix, key);
    assert AllWhole(parts) <==> Whole(batch) && Whole(theme) && Whole(lan) by {
      assert parts[0] == prefix && parts[1] == batch && parts[2] == theme && parts[3] == lan;
    }
    if WellFormed(prefix, key) {
      assert Split(key) == parts;
    }
  }

  // ----- which keys are in use -----

  /** A primary key, printed. */
  predicate IsId(s: string) {
    s != [] && forall i :: 0 <= i < |s| ==> '0' <= s[i] <= '9'
  }

  /** A language code: the parts of longer ones are joined by hyphens. */
  predicate IsLanguageCode(s: string) {
    s != [] && forall i :: 0 <= i < |s| ==>
      'a' <= s[i] <= 'z' || 'A' <= s[i] <= 'Z' || '0' <= s[i] <= '9' || s[i] == '-'
  }

  /** Keys built for batches, themes and languages of the program are rebuilt in place, from the
      batch, theme and language they were built for. */
  lemma IdKeysAreWellFormed(prefix: string, batch: string, theme: string, lan: string)
    requires Whole(prefix) && IsId(batch) && IsId(theme) && IsLanguageCode(lan)
    ensures
      var key := KeyFor(prefix, batch, theme, lan);
      WellFormed(prefix, key) && Split(key) == [prefix, batch, theme, lan] && RebuiltKey(prefix, key) == key
  {
    var key, parts := KeyFor(prefix, batch, theme, lan), [prefix, batch, theme, lan];
    KeyIsJoin(prefix, batch, theme, lan);
    SplitOfJoin(parts);
    RebuildsInPlaceExactly(prefix, key);
  }

  /** What stands before the first underscore is the first part. */
  lemma FirstPart(part: string, rest: string)
    requires Whole(part)
    ensures Split(part + ['_'] + rest)[0] == part
  {
    SplitAtUnderscore(part, rest);
    SplitOfWhole(part);
  }

  lemma FirstPartOf(part: string, key: string)
    requires Whole(part) && part + ['_'] <= key
    ensures Split(key)[0] == part
  {
    FirstPart(part, key[|part| + 1..]);
    assert key == part + ['_'] + key[|part| + 1..];
  }

  // ----- the format of keys at its limit -----

  lemma {:induction false} JoinRegroups(parts: seq<string>, x: string, y: string)
    ensures Join(parts + [x, y]) == Join(parts + [x + ['_'] + y])
  {
    if parts == [] {
      assert [x, y][1..] == [y];
    } else {
      JoinRegroups(parts[1..], x, y);
      assert (parts + [x, y])[1..] == parts[1..] + [x, y];
      assert (parts + [x + ['_'] + y])[1..] == parts[1..] + [x + ['_'] + y];
    }
  }

  /** A language part with an underscore, which no language code has, would be rebuilt under the key
      of what stands before it. */
  lemma LanguageIsCutShort(prefix: string, batch: string, theme: string, lan: string, country: string)
    requires Whole(prefix) && Whole(batch) && Whole(theme) && Whole(lan) && Whole(country)
    ensures
      var key := KeyFor(prefix, batch, theme, lan + ['_'] + country);
      |Split(key)| >= 4 && RebuiltKey(prefix, key) == KeyFor(prefix, batch, theme, lan) != key
  {
    var local := lan + ['_'] + country;
    var key, parts := KeyFor(prefix, batch, theme, local), [prefix, batch, theme, lan, country];
    KeyIsJoin(prefix, batch, theme, local);
    JoinRegroups([prefix, batch, theme], lan, country);
    assert parts == [prefix, batch, theme] + [lan, country];
    assert [prefix, batch, theme, local] == [prefix, batch, theme] + [local];
    SplitOfJoin(parts);
    assert AllWhole(parts);
    assert Split(key) == parts;
    assert local[|lan|] == '_';
    KeyRoundTripExactly(prefix, batch, theme, local);
  }
}
