// Redaction of audit metadata (src/audit/redaction.rs). Text is looked at byte by byte there; every
// byte of a non-ASCII character falls outside all the classes that are tested, so characters do.

module Redaction {
  import opened Prelude

  datatype Member = Member(key: string, value: Json)

  datatype Json =
    | Null
    | Bool(flag: bool)
    | Number(literal: string)
    | Text(text: string)
    | Array(items: seq<Json>)
    | Object(members: seq<Member>)

  const SAFE_METADATA_KEYS: seq<string> := [
    "accountref", "passwordconfigured", "sourceip", "tokencount", "tokentype", "tokentypehint"]

  const SENSITIVE_METADATA_KEYS: seq<string> :=
    ["accesstoken", "accesstokenhash", "apikey", "apikeyvalue", "authorization", "authorizationcode",
     "code", "codechallenge", "codeverifier", "cookie", "cookievalue", "clientsecret"] +
    ["clientsecrethash", "credential", "credentialid", "credentialvalue", "credentials", "csrf",
     "csrfcookie", "csrftoken", "idtoken", "jwt", "jwttoken", "nonce"] +
    ["otp", "otpcode", "otpsecret", "password", "passwordhash", "passwordvalue", "privatekey",
     "privatekeypem", "refreshtoken", "secret", "secretvalue", "session"] +
    ["sessioncookie", "sessionid", "sessiontoken", "signature", "signaturevalue", "state", "statetoken",
     "token", "tokenvalue", "totp", "totpcode", "totpsecret"]

  const REDACTED: string := "[REDACTED]"

  // -- keys -----------------------------------------------------------------------------------------

  predicate IsAlphanumeric(c: char) {
    '0' <= c <= '9' || 'a' <= c <= 'z' || 'A' <= c <= 'Z'
  }

  function ToLower(c: char): char {
    if 'A' <= c <= 'Z' then 'a' + (c - 'A') else c
  }

  function Normalize(key: string): string {
    if key == "" then ""
    else if IsAlphanumeric(key[0]) then [ToLower(key[0])] + Normalize(key[1..])
    else Normalize(key[1..])
  }

  predicate IsSensitiveKey(key: string) {
    Normalize(key) !in SAFE_METADATA_KEYS && Normalize(key) in SENSITIVE_METADATA_KEYS
  }

  // -- assignments inside a text --------------------------------------------------------------------

  predicate IsWhitespace(c: char) {
    c == ' ' || c == '\t' || c == '\n' || c == '\r' || c as int == 0x0c
  }

  predicate IsKeyByte(c: char) {
    IsAlphanumeric(c) || c == '_' || c == '-'
  }

  // Some stretch of key characters spells one of `words`, and only white space separates it from an
  // equals sign.
  predicate Spells(s: string, words: seq<string>, i: nat, k: nat, e: nat)
    requires i < k <= e < |s|
  {
    && s[e] == '='
    && (forall j :: k <= j < e ==> IsWhitespace(s[j]))
    && (forall j :: i <= j < k ==> IsKeyByte(s[j]))
    && Normalize(s[i..k]) in words
  }

  predicate Assigns(s: string, words: seq<string>) {
    exists i, k, e :: 0 <= i < k <= e < |s| && Spells(s, words, i, k, e)
  }

  predicate EndsWith(s: string, word: string) {
    |word| <= |s| && s[|s| - |word|..] == word
  }

  predicate EndsWithAny(s: string, words: seq<string>) {
    exists j :: 0 <= j < |words| && EndsWith(s, words[j])
  }

  lemma {:induction false} NormalizeConcat(a: string, b: string)
    ensures Normalize(a + b) == Normalize(a) + Normalize(b)
  {
    if a == "" {
      assert a + b == b;
    } else {
      assert (a + b)[1..] == a[1..] + b;
      NormalizeConcat(a[1..], b);
    }
  }

  // Every suffix of a normalized key is the normalized form of a suffix of the key.
  lemma {:induction false} SuffixOrigin(key: string, n: nat) returns (i: nat)
    requires n <= |Normalize(key)|
    ensures i <= |key| && Normalize(key[i..]) == Normalize(key)[n..]
    ensures n < |Normalize(key)| ==> i < |key|
  {
    if n == 0 {
      i := 0;
      assert key[0..] == key;
    } else {
      var rest := SuffixOrigin(key[1..], if IsAlphanumeric(key[0]) then n - 1 else n);
      i := rest + 1;
      assert key[i..] == key[1..][rest..];
    }
  }

  predicate NonEmpty(words: seq<string>) {
    "" !in words
  }

  lemma KeyEnds(s: string, words: seq<string>, i: nat, k: nat, e: nat)
    requires i < k <= e < |s| && Spells(s, words, i, k, e)
    ensures IsKeyByte(s[k - 1]) && !IsWhitespace(s[k - 1])
  {
  }

  // `start..end` is the longest run of key characters before the white space before an equals sign.
  predicate LongestRun(s: string, start: nat, end: nat, e: nat) {
    && start < end <= e < |s| && s[e] == '='
    && (forall j :: end <= j < e ==> IsWhitespace(s[j]))
    && (forall j :: start <= j < end ==> IsKeyByte(s[j]))
    && (start > 0 ==> !IsKeyByte(s[start - 1]))
  }

  lemma EndingRunSpells(s: string, words: seq<string>, start: nat, end: nat, e: nat)
    requires LongestRun(s, start, end, e) && NonEmpty(words) && EndsWithAny(Normalize(s[start..end]), words)
    ensures exists i, k :: 0 <= i < k <= e && Spells(s, words, i, k, e)
  {
    var run := Normalize(s[start..end]);
    var j :| 0 <= j < |words| && EndsWith(run, words[j]);
    assert words[j] in words && words[j] != "";
    var i := SuffixOrigin(s[start..end], |run| - |words[j]|);
    assert s[start..end][i..] == s[start + i..end];
    assert Spells(s, words, start + i, end, e);
  }

  lemma SpellingEndsRun(s: string, words: seq<string>, start: nat, end: nat, e: nat, i: nat, k: nat)
    requires LongestRun(s, start, end, e) && i < k <= e && Spells(s, words, i, k, e)
    ensures EndsWithAny(Normalize(s[start..end]), words)
  {
    KeyEnds(s, words, i, k, e);
    assert IsKeyByte(s[end - 1]) && !IsWhitespace(s[end - 1]);
    assert k == end && i >= start;
    NormalizeConcat(s[start..i], s[i..k]);
    assert s[start..i] + s[i..k] == s[start..end];
    var j :| 0 <= j < |words| && words[j] == Normalize(s[i..k]);
    assert EndsWith(Normalize(s[start..end]), words[j]);
  }

  // The longest run of key characters ends in a word exactly when some stretch of it spells one.
  lemma RunSpells(s: string, words: seq<string>, start: nat, end: nat, e: nat)
    requires LongestRun(s, start, end, e) && NonEmpty(words)
    ensures EndsWithAny(Normalize(s[start..end]), words) <==> exists i, k :: 0 <= i < k <= e && Spells(s, words, i, k, e)
  {
    if EndsWithAny(Normalize(s[start..end]), words) { EndingRunSpells(s, words, start, end, e); }
    if i, k :| 0 <= i < k <= e && Spells(s, words, i, k, e) { SpellingEndsRun(s, words, start, end, e, i, k); }
  }

  lemma NothingBeforeEquals(s: string, words: seq<string>, end: nat, e: nat)
    requires end <= e < |s| && (forall j :: end <= j < e ==> IsWhitespace(s[j]))
    requires end > 0 ==> !IsWhitespace(s[end - 1]) && !IsKeyByte(s[end - 1])
    ensures !exists i, k :: 0 <= i < k <= e && Spells(s, words, i, k, e)
  {
    if i, k :| 0 <= i < k <= e && Spells(s, words, i, k, e) {
      KeyEnds(s, words, i, k, e);
      assert false;
    }
  }

  // The scanner: at every equals sign, back over white space, back over the key, compare its end.
  method ContainsSensitiveAssignment(s: string, words: seq<string>) returns (found: bool)
    requires NonEmpty(words)
    ensures found <==> Assigns(s, words)
  {
    var e := 0;
    while e < |s|
      invariant 0 <= e <= |s|
      invariant !exists i, k, f :: 0 <= i < k <= f < e && Spells(s, words, i, k, f)
    {
      if s[e] == '=' {
        var end := e;
        while end > 0 && IsWhitespace(s[end - 1])
          invariant 0 <= end <= e
          invariant forall j :: end <= j < e ==> IsWhitespace(s[j])
        {
          end := end - 1;
        }
        var start := end;
        while start > 0 && IsKeyByte(s[start - 1])
          invariant 0 <= start <= end
          invariant forall j :: start <= j < end ==> IsKeyByte(s[j])
        {
          start := start - 1;
        }
        if start < end {
          RunSpells(s, words, start, end, e);
          if EndsWithAny(Normalize(s[start..end]), words) {
            return true;
          }
        } else {
          NothingBeforeEquals(s, words, end, e);
        }
      }
      e := e + 1;
    }
    return false;
  }

  lemma WordsAreNonEmpty()
    ensures NonEmpty(SENSITIVE_METADATA_KEYS)
  {
  }

  predicate IsSensitiveText(s: string) {
    Assigns(s, SENSITIVE_METADATA_KEYS)
  }

  method TextIsSensitive(s: string) returns (found: bool)
    ensures found <==> IsSensitiveText(s)
  {
    WordsAreNonEmpty();
    found := ContainsSensitiveAssignment(s, SENSITIVE_METADATA_KEYS);
  }

  // -- the transformation ------------------------------------------------------------------------------

  function Kept(members: seq<Member>): (r: seq<Member>)
    ensures forall i :: 0 <= i < |r| ==> r[i] in members && !IsSensitiveKey(r[i].key)
  {
    if members == [] then []
    else if IsSensitiveKey(members[0].key) then Kept(members[1..])
    else [members[0]] + Kept(members[1..])
  }

  function Redact(v: Json): Json
    decreases v
  {
    match v
    case Object(members) =>
      var kept := Kept(members);
      Object(seq(|kept|, i requires 0 <= i < |kept| => Member(kept[i].key, Redact(kept[i].value))))
    case Array(items) => Array(seq(|items|, i requires 0 <= i < |items| => Redact(items[i])))
    case Text(text) => if IsSensitiveText(text) then Text(REDACTED) else v
    case _ => v
  }

  // No sensitive key at any depth, and no text with a sensitive assignment.
  predicate Clean(v: Json)
    decreases v
  {
    match v
    case Object(members) => forall i :: 0 <= i < |members| ==> !IsSensitiveKey(members[i].key) && Clean(members[i].value)
    case Array(items) => forall i :: 0 <= i < |items| ==> Clean(items[i])
    case Text(text) => !IsSensitiveText(text)
    case _ => true
  }

  lemma {:induction false} KeptAll(members: seq<Member>)
    ensures |Kept(members)| <= |members|
    ensures Kept(members) == members <==> forall i :: 0 <= i < |members| ==> !IsSensitiveKey(members[i].key)
  {
    hide IsSensitiveKey;
    if members != [] {
      KeptAll(members[1..]);
      assert members == [members[0]] + members[1..];
      if Kept(members) == members {
        assert !IsSensitiveKey(members[0].key);
        assert Kept(members[1..]) == members[1..];
        assert forall i :: 0 < i < |members| ==> members[i] == members[1..][i - 1];
      }
      if forall i :: 0 <= i < |members| ==> !IsSensitiveKey(members[i].key) {
        assert forall i :: 0 <= i < |members[1..]| ==> members[1..][i] == members[i + 1];
      }
    }
  }

  lemma RedactedTextIsClean()
    ensures !IsSensitiveText(REDACTED)
  {
    assert '=' !in REDACTED;
  }

  // Nothing sensitive is left at any depth.
  lemma {:induction false} RedactIsClean(v: Json)
    ensures Clean(Redact(v))
    decreases v
  {
    match v
    case Object(members) =>
      var kept := Kept(members);
      forall i | 0 <= i < |kept| ensures Clean(Redact(kept[i].value)) {
        assert kept[i] in members;
        RedactIsClean(kept[i].value);
      }
    case Array(items) =>
      forall i | 0 <= i < |items| ensures Clean(Redact(items[i])) { RedactIsClean(items[i]); }
    case Text(_) => RedactedTextIsClean();
    case _ =>
  }

  // Exactly the clean values come out as they went in.
  lemma {:induction false} RedactKeepsIff(v: Json)
    ensures Redact(v) == v <==> Clean(v)
    decreases v
  {
    hide IsSensitiveKey;
    if Redact(v) == v { RedactIsClean(v); }
    if Clean(v) {
      match v
      case Object(members) =>
        KeptAll(members);
        forall i | 0 <= i < |members| ensures Member(members[i].key, Redact(members[i].value)) == members[i] {
          RedactKeepsIff(members[i].value);
        }
        assert Redact(v).members == members;
      case Array(items) =>
        forall i | 0 <= i < |items| ensures Redact(items[i]) == items[i] { RedactKeepsIff(items[i]); }
        assert Redact(v).items == items;
      case _ =>
    }
  }

  // `redact_metadata`: metadata that is not an object is dropped.
  function RedactMetadata(v: Json): seq<Member> {
    if v.Object? then Redact(v).members else []
  }

  // An event is redacted when it is built, again when it is recorded, when it is inserted and when
  // it is read back; all of that equals doing it once.
  lemma RedactingAgainChangesNothing(v: Json)
    ensures Redact(Redact(v)) == Redact(v)
    ensures RedactMetadata(Object(RedactMetadata(v))) == RedactMetadata(v)
  {
    RedactIsClean(v);
    RedactKeepsIff(Redact(v));
    if !v.Object? {
      assert Redact(Object([])).members == [];
    }
  }

  // -- what survives -----------------------------------------------------------------------------------

  datatype Segment = At(index: nat) | Under(key: string)

  function Find(members: seq<Member>, key: string): (r: Option<Json>)
    ensures r.Some? ==> exists i :: 0 <= i < |members| && members[i] == Member(key, r.value)
  {
    if members == [] then None
    else if members[0].key == key then Some(members[0].value)
    else Find(members[1..], key)
  }

  // The value at the end of a path.
  function Lookup(v: Json, path: seq<Segment>): Option<Json>
    decreases |path|
  {
    if path == [] then Some(v)
    else
      match path[0]
      case At(index) => if v.Array? && index < |v.items| then Lookup(v.items[index], path[1..]) else None
      case Under(key) =>
        if v.Object? && Find(v.members, key).Some? then Lookup(Find(v.members, key).value, path[1..]) else None
  }

  predicate Forbidden(path: seq<Segment>) {
    exists i :: 0 <= i < |path| && path[i].Under? && IsSensitiveKey(path[i].key)
  }

  function RedactedMembers(members: seq<Member>): seq<Member> {
    Redact(Object(members)).members
  }

  lemma RedactedMembersUnfold(members: seq<Member>)
    requires members != []
    ensures RedactedMembers(members) ==
            (if IsSensitiveKey(members[0].key) then [] else [Member(members[0].key, Redact(members[0].value))]) + RedactedMembers(members[1..])
  {
    hide IsSensitiveKey;
    var kept := Kept(members);
    assert kept == (if IsSensitiveKey(members[0].key) then [] else [members[0]]) + Kept(members[1..]);
  }

  lemma {:induction false} FindRedacted(members: seq<Member>, key: string)
    ensures Find(RedactedMembers(members), key) ==
            if IsSensitiveKey(key) || Find(members, key).None? then None else Some(Redact(Find(members, key).value))
  {
    hide IsSensitiveKey;
    if members == [] {
      assert RedactedMembers(members) == [];
    } else {
      FindRedacted(members[1..], key);
      RedactedMembersUnfold(members);
      hide RedactedMembers;
      if !IsSensitiveKey(members[0].key) {
        assert RedactedMembers(members)[0].key == members[0].key;
        assert RedactedMembers(members)[1..] == RedactedMembers(members[1..]);
      }
    }
  }

  // Redaction commutes with every path: whatever is not under a sensitive key is still found, in its
  // place and redacted; nothing is found under one, and nothing new is found anywhere. Allow-listed
  // keys and the lengths of arrays are therefore kept.
  lemma {:induction false} RedactCommutesWithPaths(v: Json, path: seq<Segment>)
    ensures Lookup(Redact(v), path) ==
            if Forbidden(path) || Lookup(v, path).None? then None else Some(Redact(Lookup(v, path).value))
    decreases |path|
  {
    hide IsSensitiveKey;
    if path != [] {
      var rest := path[1..];
      assert Forbidden(path) <==> (path[0].Under? && IsSensitiveKey(path[0].key)) || Forbidden(rest) by {
        assert forall i :: 0 < i < |path| ==> path[i] == rest[i - 1];
        assert forall i :: 0 <= i < |rest| ==> rest[i] == path[i + 1];
      }
      match path[0]
      case At(index) =>
        if v.Array? && index < |v.items| { RedactCommutesWithPaths(v.items[index], rest); }
      case Under(key) =>
        if v.Object? {
          FindRedacted(v.members, key);
          if Find(v.members, key).Some? { RedactCommutesWithPaths(Find(v.members, key).value, rest); }
        }
    }
  }

  // A value that lies under allow-listed keys only is never removed.
  lemma AllowListedValuesAreKept(v: Json, path: seq<Segment>)
    requires forall i :: 0 <= i < |path| && path[i].Under? ==> Normalize(path[i].key) in SAFE_METADATA_KEYS
    requires Lookup(v, path).Some?
    ensures Lookup(Redact(v), path) == Some(Redact(Lookup(v, path).value))
  {
    RedactCommutesWithPaths(v, path);
  }
}
