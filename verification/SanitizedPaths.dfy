/**
 * What the sanitizer stores, position by position.
 *
 * A path leads from the metadata object down to a value. For every path this module says whether
 * the stored metadata has a value there and which one, and for every key whether it is forbidden,
 * with the lists, the depth and the length written out.
 */
module SanitizedPaths {
  import opened Kernel
  import opened Sanitizer

  // ---------------------------------------------------------------- keys

  ghost predicate Occurs(needle: string, s: string) {
    exists before, after :: s == before + needle + after
  }

  lemma IncludesIffOccurs(s: string, needle: string)
    ensures Includes(s, needle) <==> Occurs(needle, s)
  {
    if Includes(s, needle) {
      var i :| 0 <= i <= |s| && needle <= s[i..];
      assert s == s[..i] + needle + s[i..][|needle|..];
    }
    if Occurs(needle, s) {
      var before, after :| s == before + needle + after;
      assert s[|before|..] == needle + after;
    }
  }

  /** Identifier columns that may be stored although they contain a sensitive word. */
  predicate SafeIdentifier(k: string) {
    || k == "apikeyid" || k == "targetapikeyid" || k == "actorapikeyid" || k == "targetkeyid"
    || k == "membershipid" || k == "actormembershipid" || k == "targetmembershipid"
    || k == "userid" || k == "actoruserid" || k == "targetuserid" || k == "projectid" || k == "targetprojectid"
    || k == "invitationid" || k == "targetinvitationid" || k == "organizationid" || k == "targetorganizationid"
  }

  /** The word is one of the sensitive ones. */
  predicate SensitiveWord(n: string) {
    || n == "password" || n == "token" || n == "secret" || n == "authorization" || n == "cookie" || n == "hash"
    || n == "credential" || n == "otp" || n == "apikey" || n == "api_key" || n == "ipaddress" || n == "useragent" || n == "sessionid"
  }

  lemma SensitiveWordsAreListed(n: string)
    ensures n in FORBIDDEN_KEY_SUBSTRINGS <==> SensitiveWord(n)
  {
  }

  lemma SafeIdentifiersAreListed(k: string)
    ensures k in SAFE_IDENTIFIER_KEYS <==> SafeIdentifier(k)
  {
  }

  ghost predicate Sensitive(k: string) {
    exists n :: SensitiveWord(n) && Occurs(n, k)
  }

  lemma SensitiveIff(k: string)
    ensures (exists n :: n in FORBIDDEN_KEY_SUBSTRINGS && Includes(k, n)) <==> Sensitive(k)
  {
    forall n ensures n in FORBIDDEN_KEY_SUBSTRINGS && Includes(k, n) <==> SensitiveWord(n) && Occurs(n, k) {
      SensitiveWordsAreListed(n);
      IncludesIffOccurs(k, n);
    }
  }

  /** A key is forbidden exactly if, in lower case, it contains a sensitive word and is no safe identifier. */
  lemma ForbiddenIff(lower: string -> string, key: string)
    ensures IsForbiddenKey(lower, key) <==> !SafeIdentifier(lower(key)) && Sensitive(lower(key))
  {
    SafeIdentifiersAreListed(lower(key));
    SensitiveIff(lower(key));
  }

  // ---------------------------------------------------------------- paths

  datatype Hop = Index(i: nat) | Key(k: string)

  /** One hop down, if it leads anywhere. */
  ghost function Child(v: Json, h: Hop): Option<Json> {
    match (v, h)
    case (Array(items), Index(i)) => if i < |items| then Some(items[i]) else None
    case (Object(entries), Key(k)) =>
      if HasKey(entries, k) then var j :| 0 <= j < |entries| && entries[j].key == k; Some(entries[j].value) else None
    case _ => None
  }

  ghost function At(v: Json, path: seq<Hop>): Option<Json>
    decreases |path|
  {
    if path == [] then Some(v)
    else match Child(v, path[0])
      case None => None
      case Some(c) => At(c, path[1..])
  }

  /** No hop goes through a key that is dropped. */
  predicate Passable(lower: string -> string, path: seq<Hop>) {
    forall n :: 0 <= n < |path| && path[n].Key? ==> !IsForbiddenKey(lower, path[n].k) && path[n].k != "__proto__"
  }

  lemma {:induction false} CleanItemAt(lower: string -> string, items: seq<Json>, depth: int, i: nat)
    requires i < |items|
    ensures CleanItems(lower, items, depth)[i] == Clean(lower, items[i], depth)
    decreases items
  {
    if i < |items| - 1 {
      CleanItemAt(lower, items[..|items| - 1], depth, i);
    }
  }

  /** Every kept entry is the clean form of one with the same key. */
  lemma {:induction false} CleanEntryFrom(lower: string -> string, entries: seq<Entry>, depth: int, j: nat)
    requires j < |CleanEntries(lower, entries, depth)|
    ensures var e := CleanEntries(lower, entries, depth)[j];
            exists i :: 0 <= i < |entries| && entries[i].key == e.key && e.value == Clean(lower, entries[i].value, depth)
    decreases entries
  {
    var init, last := entries[..|entries| - 1], entries[|entries| - 1];
    var kept := CleanEntries(lower, init, depth);
    if j < |kept| {
      CleanEntryFrom(lower, init, depth, j);
      var i :| 0 <= i < |init| && init[i].key == kept[j].key && kept[j].value == Clean(lower, init[i].value, depth);
      assert entries[i] == init[i];
    } else {
      assert CleanEntries(lower, entries, depth)[j] == Entry(last.key, Clean(lower, last.value, depth));
    }
  }

  /** One hop into a clean value. */
  lemma CleanChild(lower: string -> string, v: Json, depth: int, h: Hop)
    requires WellFormed(v) && depth <= MAX_DEPTH
    ensures Child(Clean(lower, v, depth), h) ==
            if Child(v, h).Some? && Passable(lower, [h]) then Some(Clean(lower, Child(v, h).value, depth + 1)) else None
  {
    assert [h][0] == h;
    match (v, h)
    case (Array(items), Index(i)) =>
      if i < |items| {
        CleanItemAt(lower, items, depth + 1, i);
      }
    case (Object(entries), Key(k)) =>
      CleanEntryOf(lower, entries, depth + 1, k);
      assert Passable(lower, [h]) <==> !Dropped(lower, k);
    case _ =>
  }

  lemma CleanEntryOf(lower: string -> string, entries: seq<Entry>, depth: int, k: string)
    requires WellFormed(Object(entries))
    ensures Child(Object(CleanEntries(lower, entries, depth)), Key(k)) ==
            if HasKey(entries, k) && !Dropped(lower, k) then Some(Clean(lower, Child(Object(entries), Key(k)).value, depth)) else None
  {
    var kept := CleanEntries(lower, entries, depth);
    KeptKeysComeFrom(lower, entries, depth, k);
    forall j | 0 <= j < |kept| && kept[j].key == k
      ensures kept[j].value == Clean(lower, Child(Object(entries), Key(k)).value, depth)
    {
      CleanEntryFrom(lower, entries, depth, j);
    }
  }

  lemma ChildIsWellFormed(v: Json, h: Hop)
    requires WellFormed(v) && Child(v, h).Some?
    ensures WellFormed(Child(v, h).value)
  {
  }

  /** Down any path that stays within the depth limit. */
  lemma {:induction false} CleanAt(lower: string -> string, v: Json, depth: int, path: seq<Hop>)
    requires WellFormed(v) && depth + |path| <= MAX_DEPTH + 1
    ensures At(Clean(lower, v, depth), path) ==
            if At(v, path).Some? && Passable(lower, path) then Some(Clean(lower, At(v, path).value, depth + |path|)) else None
    decreases |path|
  {
    if path != [] {
      CleanChild(lower, v, depth, path[0]);
      assert path == [path[0]] + path[1..];
      assert Passable(lower, path) <==> Passable(lower, [path[0]]) && Passable(lower, path[1..]);
      if Child(v, path[0]).Some? {
        ChildIsWellFormed(v, path[0]);
        CleanAt(lower, Child(v, path[0]).value, depth + 1, path[1..]);
      }
    }
  }

  lemma {:induction false} AtSplits(v: Json, path: seq<Hop>, rest: seq<Hop>)
    ensures At(v, path + rest) == match At(v, path) case None => None case Some(c) => At(c, rest)
    decreases |path|
  {
    if path == [] {
      assert path + rest == rest;
    } else {
      assert (path + rest)[1..] == path[1..] + rest;
      if Child(v, path[0]).Some? {
        AtSplits(Child(v, path[0]).value, path[1..], rest);
      }
    }
  }

  /** What is stored where the original had `v`, below the depth limit: leaves are kept or capped, containers stay containers. */
  predicate KeptAs(v: Json, stored: Json) {
    match v
    case Primitive(_) => stored == v
    case Text(s) => stored == Text(if |s| <= 1024 then s else s[..1024] + ['\U{2026}'])
    case Array(items) => stored.Array? && |stored.items| == |items|
    case Object(_) => stored.Object?
  }

  lemma FifthLevelIsText(lower: string -> string, v: Json, path: seq<Hop>)
    requires WellFormed(v) && |path| == 5
    ensures At(Clean(lower, v, 0), path).Some? ==> At(Clean(lower, v, 0), path).value.Text?
  {
    CleanAt(lower, v, 0, path);
  }

  lemma NothingDeeper(lower: string -> string, v: Json, path: seq<Hop>, rest: seq<Hop>)
    requires WellFormed(v) && |path| == 5 && rest != []
    ensures At(Clean(lower, v, 0), path + rest).None?
  {
    FifthLevelIsText(lower, v, path);
    TextEndsPaths(Clean(lower, v, 0), path, rest);
  }

  lemma TextEndsPaths(v: Json, path: seq<Hop>, rest: seq<Hop>)
    requires (At(v, path).Some? ==> At(v, path).value.Text?) && rest != []
    ensures At(v, path + rest).None?
  {
    AtSplits(v, path, rest);
  }

  /**
   * The stored metadata, path by path: a value is there exactly if the original had one, no key on
   * the way is forbidden or the prototype's, and it is at most five levels down; on the fifth level
   * it is the truncation mark.
   */
  lemma StoredAt(lower: string -> string, metadata: seq<Entry>, path: seq<Hop>)
    requires WellFormed(Object(metadata))
    ensures var before, stored := At(Object(metadata), path), At(Object(CleanEntries(lower, metadata, 1)), path);
            && (stored.Some? <==> before.Some? && Passable(lower, path) && |path| <= 5)
            && (stored.Some? ==> if |path| == 5 then stored.value == Text("[TRUNCATED]") else KeptAs(before.value, stored.value))
  {
    var v := Object(metadata);
    assert Clean(lower, v, 0) == Object(CleanEntries(lower, metadata, 1));
    if |path| <= 5 {
      CleanAt(lower, v, 0, path);
      if At(v, path).Some? && |path| < 5 {
        CleanKeeps(lower, At(v, path).value, |path|);
      }
    } else {
      NothingDeeper(lower, v, path[..5], path[5..]);
      assert path == path[..5] + path[5..];
    }
  }

  lemma CleanKeeps(lower: string -> string, v: Json, depth: int)
    requires depth <= MAX_DEPTH
    ensures KeptAs(v, Clean(lower, v, depth))
  {
  }
}
