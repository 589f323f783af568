/** The security-metadata sanitizer: forbidden keys go, strings are capped, nesting is bounded. */
module Sanitizer {

  /** A JSON value. An object is its own enumerable entries, in order. */
  datatype Json =
    | Primitive(id: int)
    | Text(text: string)
    | Array(items: seq<Json>)
    | Object(entries: seq<Entry>)

  datatype Entry = Entry(key: string, value: Json)

  const FORBIDDEN_KEY_SUBSTRINGS: seq<string> := [
    "password", "token", "secret", "authorization", "cookie", "hash", "credential", "otp",
    "apikey", "api_key", "ipaddress", "useragent", "sessionid"]

  const SAFE_IDENTIFIER_KEYS: set<string> := {
    "apikeyid", "targetapikeyid", "actorapikeyid", "targetkeyid", "membershipid", "actormembershipid",
    "targetmembershipid", "userid", "actoruserid", "targetuserid", "projectid", "targetprojectid",
    "invitationid", "targetinvitationid", "organizationid", "targetorganizationid"}

  const MAX_DEPTH := 4
  const MAX_STRING_LENGTH := 1024
  const ELLIPSIS := '\U{2026}'
  const TRUNCATED := Text("[TRUNCATED]")

  predicate Includes(s: string, needle: string) {
    exists i :: 0 <= i <= |s| && needle <= s[i..]
  }

  /** `lower` stands for the host's lower-casing. */
  predicate IsForbiddenKey(lower: string -> string, key: string) {
    lower(key) !in SAFE_IDENTIFIER_KEYS &&
    exists n :: n in FORBIDDEN_KEY_SUBSTRINGS && Includes(lower(key), n)
  }

  /** Assigning this key sets an object's prototype instead of creating an entry. */
  const PROTO := "__proto__"

  /** `output[key] = value`. */
  function Assign(output: seq<Entry>, key: string, value: Json): seq<Entry> {
    if key == PROTO then output
    else if exists i :: 0 <= i < |output| && output[i].key == key then Replace(output, key, value)
    else output + [Entry(key, value)]
  }

  function Replace(output: seq<Entry>, key: string, value: Json): seq<Entry> {
    seq(|output|, i requires 0 <= i < |output| => if output[i].key == key then Entry(key, value) else output[i])
  }

  function Cap(s: string): string {
    if |s| > MAX_STRING_LENGTH then s[..MAX_STRING_LENGTH] + [ELLIPSIS] else s
  }

  // ---------------------------------------------------------------- what sanitizing means

  predicate Dropped(lower: string -> string, key: string) {
    IsForbiddenKey(lower, key) || key == PROTO
  }

  function Clean(lower: string -> string, v: Json, depth: int): Json
    decreases v, 1
  {
    if depth > MAX_DEPTH then TRUNCATED
    else match v
      case Primitive(_) => v
      case Text(s) => Text(Cap(s))
      case Array(items) => Array(CleanItems(lower, items, depth + 1))
      case Object(entries) => Object(CleanEntries(lower, entries, depth + 1))
  }

  function CleanItems(lower: string -> string, items: seq<Json>, depth: int): (r: seq<Json>)
    ensures |r| == |items|
    decreases items, 0
  {
    if items == [] then []
    else CleanItems(lower, items[..|items| - 1], depth) + [Clean(lower, items[|items| - 1], depth)]
  }

  function CleanEntries(lower: string -> string, entries: seq<Entry>, depth: int): seq<Entry>
    decreases entries, 0
  {
    if entries == [] then []
    else
      var e := entries[|entries| - 1];
      CleanEntries(lower, entries[..|entries| - 1], depth)
      + (if Dropped(lower, e.key) then [] else [Entry(e.key, Clean(lower, e.value, depth))])
  }

  /** The keys of an object are distinct, here and below. */
  predicate WellFormed(v: Json)
    decreases v
  {
    match v
    case Primitive(_) => true
    case Text(_) => true
    case Array(items) => forall i :: 0 <= i < |items| ==> WellFormed(items[i])
    case Object(entries) =>
      (forall i, j :: 0 <= i < j < |entries| ==> entries[i].key != entries[j].key)
      && forall i :: 0 <= i < |entries| ==> WellFormed(entries[i].value)
  }

  // ---------------------------------------------------------------- the sanitizer

  method SanitizeValue(lower: string -> string, value: Json, depth: int) returns (r: Json)
    requires WellFormed(value)
    ensures r == Clean(lower, value, depth)
    decreases value, 1
  {
    if depth > MAX_DEPTH {
      return TRUNCATED;
    }
    match value {
      case Text(s) =>
        r := Text(if |s| > MAX_STRING_LENGTH then s[..MAX_STRING_LENGTH] + [ELLIPSIS] else s);
      case Array(items) =>
        var cleaned: seq<Json> := [];
        for i := 0 to |items|
          invariant cleaned == CleanItems(lower, items[..i], depth + 1)
        {
          var item := SanitizeValue(lower, items[i], depth + 1);
          assert items[..i + 1][..i] == items[..i];
          cleaned := cleaned + [item];
        }
        assert items[..|items|] == items;
        r := Array(cleaned);
      case Object(entries) =>
        var output := SanitizeObject(lower, value, entries, depth + 1);
        r := Object(output);
      case Primitive(_) =>
        r := value;
    }
  }

  method SanitizeObject(lower: string -> string, ghost owner: Json, input: seq<Entry>, depth: int) returns (output: seq<Entry>)
    requires owner == Object(input) && WellFormed(owner)
    ensures output == CleanEntries(lower, input, depth)
    decreases owner, 0
  {
    output := [];
    for i := 0 to |input|
      invariant output == CleanEntries(lower, input[..i], depth)
    {
      assert input[..i + 1][..i] == input[..i];
      if IsForbiddenKey(lower, input[i].key) {
        continue;
      }
      var value := SanitizeValue(lower, input[i].value, depth);
      KeptKeysComeFrom(lower, input[..i], depth, input[i].key);
      output := Assign(output, input[i].key, value);
    }
    assert input[..|input|] == input;
  }

  method SanitizeSecurityMetadata(lower: string -> string, metadata: seq<Entry>) returns (output: seq<Entry>)
    requires WellFormed(Object(metadata))
    ensures output == CleanEntries(lower, metadata, 1)
  {
    output := SanitizeObject(lower, Object(metadata), metadata, 1);
  }

  predicate HasKey(entries: seq<Entry>, key: string) {
    exists i :: 0 <= i < |entries| && entries[i].key == key
  }

  lemma {:induction false} KeptKeysComeFrom(lower: string -> string, entries: seq<Entry>, depth: int, key: string)
    ensures HasKey(CleanEntries(lower, entries, depth), key) <==> HasKey(entries, key) && !Dropped(lower, key)
    decreases entries
  {
    if entries != [] {
      var init, e := entries[..|entries| - 1], entries[|entries| - 1];
      KeptKeysComeFrom(lower, init, depth, key);
      assert entries == init + [e];
      HasKeySnoc(init, e, key);
      if !Dropped(lower, e.key) {
        HasKeySnoc(CleanEntries(lower, init, depth), Entry(e.key, Clean(lower, e.value, depth)), key);
      } else {
        assert CleanEntries(lower, entries, depth) == CleanEntries(lower, init, depth);
      }
    }
  }

  lemma HasKeySnoc(entries: seq<Entry>, e: Entry, key: string)
    ensures HasKey(entries + [e], key) <==> HasKey(entries, key) || e.key == key
  {
    var all := entries + [e];
    assert all[|entries|] == e;
    if HasKey(entries, key) {
      var i :| 0 <= i < |entries| && entries[i].key == key;
      assert all[i].key == key;
    }
  }

  /** At the top level exactly the forbidden keys, and the prototype's, are missing. */
  lemma TopLevelKeys(lower: string -> string, metadata: seq<Entry>, key: string)
    ensures HasKey(CleanEntries(lower, metadata, 1), key)
            <==> HasKey(metadata, key) && !IsForbiddenKey(lower, key) && key != "__proto__"
  {
    KeptKeysComeFrom(lower, metadata, 1, key);
  }

  // ---------------------------------------------------------------- what sanitized values look like

  /** What the sanitizer would leave alone at this depth. */
  predicate Stable(lower: string -> string, v: Json, depth: int)
    decreases v
  {
    if depth > MAX_DEPTH then v == TRUNCATED
    else match v
      case Primitive(_) => true
      case Text(s) => |s| <= MAX_STRING_LENGTH || (|s| == MAX_STRING_LENGTH + 1 && s[MAX_STRING_LENGTH] == ELLIPSIS)
      case Array(items) => forall i :: 0 <= i < |items| ==> Stable(lower, items[i], depth + 1)
      case Object(entries) =>
        forall i :: 0 <= i < |entries| ==> !Dropped(lower, entries[i].key) && Stable(lower, entries[i].value, depth + 1)
  }

  predicate StableEntries(lower: string -> string, entries: seq<Entry>, depth: int) {
    forall i :: 0 <= i < |entries| ==> !Dropped(lower, entries[i].key) && Stable(lower, entries[i].value, depth)
  }

  predicate StableItems(lower: string -> string, items: seq<Json>, depth: int) {
    forall i :: 0 <= i < |items| ==> Stable(lower, items[i], depth)
  }

  lemma {:induction false} CleanIsStable(lower: string -> string, v: Json, depth: int)
    ensures Stable(lower, Clean(lower, v, depth), depth)
    decreases v, 1
  {
    if depth <= MAX_DEPTH {
      match v
      case Array(items) => CleanItemsAreStable(lower, items, depth + 1);
      case Object(entries) => CleanEntriesAreStable(lower, entries, depth + 1);
      case _ =>
    }
  }

  lemma {:induction false} CleanItemsAreStable(lower: string -> string, items: seq<Json>, depth: int)
    ensures StableItems(lower, CleanItems(lower, items, depth), depth)
    decreases items, 0
  {
    if items != [] {
      CleanItemsAreStable(lower, items[..|items| - 1], depth);
      CleanIsStable(lower, items[|items| - 1], depth);
    }
  }

  lemma {:induction false} CleanEntriesAreStable(lower: string -> string, entries: seq<Entry>, depth: int)
    ensures StableEntries(lower, CleanEntries(lower, entries, depth), depth)
    decreases entries, 0
  {
    if entries != [] {
      CleanEntriesAreStable(lower, entries[..|entries| - 1], depth);
      CleanIsStable(lower, entries[|entries| - 1].value, depth);
    }
  }

  /** Sanitizing changes nothing exactly when the value has that shape. */
  lemma {:induction false} UnchangedIffStable(lower: string -> string, v: Json, depth: int)
    ensures Clean(lower, v, depth) == v <==> Stable(lower, v, depth)
    decreases v, 1
  {
    CleanIsStable(lower, v, depth);
    if Stable(lower, v, depth) && depth <= MAX_DEPTH {
      match v
      case Array(items) => StableItemsStay(lower, items, depth + 1);
      case Object(entries) => StableEntriesStay(lower, entries, depth + 1);
      case Text(s) => assert |s| > MAX_STRING_LENGTH ==> s == s[..MAX_STRING_LENGTH] + [ELLIPSIS];
      case _ =>
    }
  }

  lemma {:induction false} StableItemsStay(lower: string -> string, items: seq<Json>, depth: int)
    requires StableItems(lower, items, depth)
    ensures CleanItems(lower, items, depth) == items
    decreases items, 0
  {
    if items != [] {
      StableItemsStay(lower, items[..|items| - 1], depth);
      UnchangedIffStable(lower, items[|items| - 1], depth);
      assert items == items[..|items| - 1] + [items[|items| - 1]];
    }
  }

  lemma {:induction false} StableEntriesStay(lower: string -> string, entries: seq<Entry>, depth: int)
    requires StableEntries(lower, entries, depth)
    ensures CleanEntries(lower, entries, depth) == entries
    decreases entries, 0
  {
    if entries != [] {
      var e := entries[|entries| - 1];
      StableEntriesStay(lower, entries[..|entries| - 1], depth);
      UnchangedIffStable(lower, e.value, depth);
      assert entries == entries[..|entries| - 1] + [e];
    }
  }

  /** So reading sanitized what writing sanitized never alters it, whatever the host's lower-casing does. */
  lemma SanitizingTwiceIsSanitizingOnce(lower: string -> string, metadata: seq<Entry>)
    ensures var once := CleanEntries(lower, metadata, 1); CleanEntries(lower, once, 1) == once
  {
    CleanEntriesAreStable(lower, metadata, 1);
    StableEntriesStay(lower, CleanEntries(lower, metadata, 1), 1);
  }

  /** No forbidden key anywhere below. */
  predicate NoForbiddenKey(lower: string -> string, v: Json)
    decreases v
  {
    match v
    case Array(items) => forall i :: 0 <= i < |items| ==> NoForbiddenKey(lower, items[i])
    case Object(entries) =>
      forall i :: 0 <= i < |entries| ==> !IsForbiddenKey(lower, entries[i].key) && NoForbiddenKey(lower, entries[i].value)
    case _ => true
  }

  /** At most n levels of arrays and objects. */
  predicate NestedAtMost(v: Json, n: int)
    decreases v
  {
    match v
    case Array(items) => 1 <= n && forall i :: 0 <= i < |items| ==> NestedAtMost(items[i], n - 1)
    case Object(entries) => 1 <= n && forall i :: 0 <= i < |entries| ==> NestedAtMost(entries[i].value, n - 1)
    case _ => true
  }

  predicate StringsAtMost(v: Json, n: nat)
    decreases v
  {
    match v
    case Text(s) => |s| <= n
    case Array(items) => forall i :: 0 <= i < |items| ==> StringsAtMost(items[i], n)
    case Object(entries) => forall i :: 0 <= i < |entries| ==> StringsAtMost(entries[i].value, n)
    case _ => true
  }

  lemma {:induction false} StableIsSafe(lower: string -> string, v: Json, depth: int)
    requires Stable(lower, v, depth) && depth <= MAX_DEPTH + 1
    ensures NoForbiddenKey(lower, v) && NestedAtMost(v, MAX_DEPTH + 1 - depth) && StringsAtMost(v, MAX_STRING_LENGTH + 1)
    decreases v
  {
    match v
    case Array(items) =>
      forall i | 0 <= i < |items|
        ensures NoForbiddenKey(lower, items[i]) && NestedAtMost(items[i], MAX_DEPTH - depth) && StringsAtMost(items[i], MAX_STRING_LENGTH + 1)
      {
        StableIsSafe(lower, items[i], depth + 1);
      }
    case Object(entries) =>
      forall i | 0 <= i < |entries|
        ensures NoForbiddenKey(lower, entries[i].value) && NestedAtMost(entries[i].value, MAX_DEPTH - depth)
                && StringsAtMost(entries[i].value, MAX_STRING_LENGTH + 1)
      {
        StableIsSafe(lower, entries[i].value, depth + 1);
      }
    case _ =>
  }

  /** What is stored has no forbidden key at any depth, at most five levels, and no string value over 1025 characters. */
  lemma SanitizedIsSafe(lower: string -> string, metadata: seq<Entry>)
    ensures var v := Object(CleanEntries(lower, metadata, 1));
            NoForbiddenKey(lower, v) && NestedAtMost(v, 5) && StringsAtMost(v, 1025)
  {
    CleanEntriesAreStable(lower, metadata, 1);
    StableIsSafe(lower, Object(CleanEntries(lower, metadata, 1)), 0);
  }

  /** A value that is shallow and short and holds no forbidden key is stored exactly as it is. */
  lemma {:induction false} HarmlessIsKept(lower: string -> string, v: Json, depth: int)
    requires NoForbiddenKey(lower, v) && NestedAtMost(v, MAX_DEPTH - depth) && StringsAtMost(v, MAX_STRING_LENGTH) && depth <= MAX_DEPTH
    requires NoProto(v)
    ensures Stable(lower, v, depth)
    decreases v
  {
    match v
    case Array(items) =>
      forall i | 0 <= i < |items| ensures Stable(lower, items[i], depth + 1) {
        HarmlessIsKept(lower, items[i], depth + 1);
      }
    case Object(entries) =>
      forall i | 0 <= i < |entries| ensures Stable(lower, entries[i].value, depth + 1) {
        HarmlessIsKept(lower, entries[i].value, depth + 1);
      }
    case _ =>
  }

  predicate NoProto(v: Json)
    decreases v
  {
    match v
    case Array(items) => forall i :: 0 <= i < |items| ==> NoProto(items[i])
    case Object(entries) => forall i :: 0 <= i < |entries| ==> entries[i].key != PROTO && NoProto(entries[i].value)
    case _ => true
  }
}
