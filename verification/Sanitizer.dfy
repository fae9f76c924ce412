/** `_sanitize_value`: secrets in an audit payload are masked by key, at any depth. */
module Sanitizer {
  import opened Wrappers

  // A JSON-like value. A dict keeps its insertion order; `Other` is every value that is
  // neither a dict nor a list, which the sanitizer returns as it is (a tuple is one).
  datatype Value = Dict(entries: seq<Entry>) | List(items: seq<Value>) | Text(text: string) | Other(repr: string)

  datatype Entry = Entry(key: string, value: Value)

  const KEYWORDS := {"api_key", "api_secret", "secret", "token", "password", "webhook_url"}
  const MASK := Text("***")

  // str.lower on ASCII letters
  function Lower(s: string): (l: string) {
    seq(|s|, i requires 0 <= i < |s| =>
      if 'A' <= s[i] <= 'Z' then (s[i] as int - 'A' as int + 'a' as int) as char else s[i])
  }

  predicate Contains(s: string, word: string) {
    word <= s || (s != "" && Contains(s[1..], word))
  }

  predicate Sensitive(key: string) {
    exists keyword <- KEYWORDS :: Contains(Lower(key), keyword)
  }

  function Sanitize(value: Value): Value {
    match value
    case Dict(entries) =>
      Dict(seq(|entries|, i requires 0 <= i < |entries| =>
        Entry(entries[i].key, if Sensitive(entries[i].key) then MASK else Sanitize(entries[i].value))))
    case List(items) =>
      List(seq(|items|, i requires 0 <= i < |items| => Sanitize(items[i])))
    case _ => value
  }

  // Every secret key, at any depth, maps to the mask.
  predicate Masked(value: Value) {
    match value
    case Dict(entries) =>
      forall i | 0 <= i < |entries| ::
        if Sensitive(entries[i].key) then entries[i].value == MASK else Masked(entries[i].value)
    case List(items) =>
      forall i | 0 <= i < |items| :: Masked(items[i])
    case _ => true
  }

  lemma {:induction false} SanitizeMasks(value: Value)
    ensures Masked(Sanitize(value))
  {
    match value
    case Dict(entries) =>
      forall i | 0 <= i < |entries| && !Sensitive(entries[i].key) {
        SanitizeMasks(entries[i].value);
      }
    case List(items) =>
      forall i | 0 <= i < |items| {
        SanitizeMasks(items[i]);
      }
    case _ =>
  }

  // ---- Which keys are secret, letter by letter

  // c is the letter d of a keyword, in either case.
  predicate SameLetter(c: char, d: char) {
    c == d || ('A' <= c <= 'Z' && c as int + 32 == d as int)
  }

  // The word stands in the key at position p.
  predicate StandsAt(key: string, word: string, p: nat) {
    p + |word| <= |key| && forall i | 0 <= i < |word| :: SameLetter(key[p + i], word[i])
  }

  predicate Names(key: string, word: string) {
    exists p | 0 <= p <= |key| :: StandsAt(key, word, p)
  }

  predicate LowerCase(word: string) {
    forall i | 0 <= i < |word| :: !('A' <= word[i] <= 'Z')
  }

  lemma StandsAtHead(key: string, word: string)
    requires LowerCase(word)
    ensures word <= Lower(key) <==> StandsAt(key, word, 0)
  {
    if |word| <= |key| {
      assert forall i | 0 <= i < |word| :: Lower(key)[i] == word[i] <==> SameLetter(key[i], word[i]);
      if StandsAt(key, word, 0) {
        assert forall i | 0 <= i < |word| :: SameLetter(key[0 + i], word[i]);
        assert Lower(key)[..|word|] == word;
      }
      if word <= Lower(key) {
        assert forall i | 0 <= i < |word| :: Lower(key)[i] == word[i];
      }
    }
  }

  lemma {:induction false} ContainsMeans(key: string, word: string)
    requires LowerCase(word)
    ensures Contains(Lower(key), word) <==> Names(key, word)
    decreases |key|
  {
    StandsAtHead(key, word);
    if key != [] {
      var rest := key[1..];
      assert Lower(key)[1..] == Lower(rest);
      ContainsMeans(rest, word);
      if p :| 0 <= p <= |rest| && StandsAt(rest, word, p) {
        NextPosition(key, word, p);
      }
      if p :| 0 < p <= |key| && StandsAt(key, word, p) {
        NextPosition(key, word, p - 1);
      }
    }
  }

  lemma NextPosition(key: string, word: string, p: nat)
    requires key != []
    ensures StandsAt(key[1..], word, p) <==> StandsAt(key, word, p + 1)
  {
    var rest := key[1..];
    if p + 1 + |word| <= |key| {
      assert forall i | 0 <= i < |word| :: SameLetter(rest[p + i], word[i]) <==> SameLetter(key[p + 1 + i], word[i]);
    }
  }

  predicate NamesSecret(key: string) {
    || Names(key, "api_key") || Names(key, "api_secret") || Names(key, "secret")
    || Names(key, "token") || Names(key, "password") || Names(key, "webhook_url")
  }

  // A key is secret exactly when one of the six words stands somewhere in it, in any case.
  lemma SecretKeys(key: string)
    ensures Sensitive(key) <==> NamesSecret(key)
  {
    forall word <- KEYWORDS
      ensures Contains(Lower(key), word) <==> Names(key, word)
    {
      ContainsMeans(key, word);
    }
  }

  // What becomes of an entry of a dict.
  lemma EntrySanitized(entries: seq<Entry>, i: nat)
    requires i < |entries|
    ensures var out := Sanitize(Dict(entries));
            && out.Dict? && |out.entries| == |entries| && out.entries[i].key == entries[i].key
            && out.entries[i].value == if NamesSecret(entries[i].key) then Text("***") else Sanitize(entries[i].value)
  {
    SecretKeys(entries[i].key);
  }

  // Sanitizing changes nothing exactly when there is no secret to mask.
  lemma {:induction false} SanitizeFixpoints(value: Value)
    ensures Sanitize(value) == value <==> Masked(value)
  {
    match value
    case Dict(entries) =>
      forall i | 0 <= i < |entries| {
        SanitizeFixpoints(entries[i].value);
      }
      var out := Sanitize(value).entries;
      if Sanitize(value) == value {
        forall i | 0 <= i < |entries|
          ensures if Sensitive(entries[i].key) then entries[i].value == MASK else Masked(entries[i].value)
        {
          assert out[i] == entries[i];
        }
      }
      if Masked(value) {
        assert out == entries;
      }
    case List(items) =>
      forall i | 0 <= i < |items| {
        SanitizeFixpoints(items[i]);
      }
      var out := Sanitize(value).items;
      if Sanitize(value) == value {
        assert forall i | 0 <= i < |items| :: out[i] == items[i];
      }
      if Masked(value) {
        assert out == items;
      }
    case _ =>
  }

  lemma SanitizeIdempotent(value: Value)
    ensures Sanitize(Sanitize(value)) == Sanitize(value)
  {
    SanitizeMasks(value);
    SanitizeFixpoints(Sanitize(value));
  }

  // ---- Paths into a value

  datatype PathStep = Key(key: string) | Index(index: nat)

  // Position of the first entry with this key.
  function Find(entries: seq<Entry>, key: string): (r: Option<nat>)
    ensures r.Some? ==> r.value < |entries| && entries[r.value].key == key
  {
    if entries == [] then None
    else if entries[0].key == key then Some(0)
    else match Find(entries[1..], key)
      case None => None
      case Some(i) => Some(i + 1)
  }

  function Child(value: Value, step: PathStep): (r: Option<Value>)
    ensures r.Some? ==> r.value < value
  {
    match (value, step)
    case (Dict(entries), Key(key)) =>
      (match Find(entries, key)
       case None => None
       case Some(i) => Some(entries[i].value))
    case (List(items), Index(i)) => if i < |items| then Some(items[i]) else None
    case _ => None
  }

  function Lookup(value: Value, path: seq<PathStep>): Option<Value>
    decreases |path|
  {
    if path == [] then Some(value) else
    match Child(value, path[0])
    case None => None
    case Some(child) => Lookup(child, path[1..])
  }

  predicate SensitiveStep(step: PathStep) {
    step.Key? && Sensitive(step.key)
  }

  // How many steps a path takes before its first secret key.
  function Before(path: seq<PathStep>): (n: nat)
    ensures n <= |path|
    ensures n < |path| ==> SensitiveStep(path[n])
    ensures forall i | 0 <= i < n :: !SensitiveStep(path[i])
  {
    if path == [] || SensitiveStep(path[0]) then 0 else 1 + Before(path[1..])
  }

  lemma {:induction false} FindSameKeys(a: seq<Entry>, b: seq<Entry>, key: string)
    requires |a| == |b| && forall i | 0 <= i < |a| :: a[i].key == b[i].key
    ensures Find(a, key) == Find(b, key)
  {
    if a != [] && a[0].key != key {
      FindSameKeys(a[1..], b[1..], key);
    }
  }

  lemma ChildSanitized(value: Value, step: PathStep)
    ensures Child(Sanitize(value), step) ==
            match Child(value, step)
            case None => None
            case Some(child) => Some(if SensitiveStep(step) then MASK else Sanitize(child))
  {
    if value.Dict? && step.Key? {
      FindSameKeys(value.entries, Sanitize(value).entries, step.key);
    }
  }

  // Every path, before and after: it leads nowhere new; without a secret key it leads to the
  // sanitized value it led to (so a leaf survives unchanged); if its last step is its only
  // secret key it leads to the mask; and nothing is left below a secret key.
  lemma {:induction false} SanitizeAtPath(value: Value, path: seq<PathStep>)
    ensures Lookup(Sanitize(value), path) ==
            match Lookup(value, path)
            case None => None
            case Some(x) =>
              if Before(path) == |path| then Some(Sanitize(x))
              else if Before(path) == |path| - 1 then Some(MASK)
              else None
    decreases |path|
  {
    if path != [] {
      ChildSanitized(value, path[0]);
      match Child(value, path[0])
      case None =>
      case Some(child) =>
        if SensitiveStep(path[0]) {
          LookupBelowLeaf(path[1..]);
        } else {
          SanitizeAtPath(child, path[1..]);
        }
    }
  }

  lemma LookupBelowLeaf(path: seq<PathStep>)
    ensures Lookup(MASK, path) == if path == [] then Some(MASK) else None
  {
  }
}
