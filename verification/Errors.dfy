/** Normalised exchange errors: `normalize_error` and `_normalize_http_error`. */
module Errors {
  import opened Wrappers

  datatype Category = Auth | RateLimit | Validation | Network | Exchange

  datatype NormalizedError = NormalizedError(category: Category, retryable: bool, sourceCode: Option<string>, message: string)

  // str.upper on ASCII letters
  function Upper(s: string): (u: string)
    ensures |u| == |s|
  {
    seq(|s|, i requires 0 <= i < |s| =>
      if 'a' <= s[i] <= 'z' then (s[i] as int - 'a' as int + 'A' as int) as char else s[i])
  }

  function CategoryOf(sourceCode: Option<string>): Category {
    var code := if sourceCode.Some? then Upper(sourceCode.value) else "";
    if code in {"AUTH_FAILED", "INVALID_API_KEY", "UNAUTHORIZED"} then Auth
    else if code in {"RATE_LIMIT", "TOO_MANY_REQUESTS", "THROTTLED"} then RateLimit
    else if code in {"INVALID_PARAM", "BAD_REQUEST", "INSUFFICIENT_MARGIN", "INVALID_RESPONSE"} then Validation
    else if code in {"NETWORK_TIMEOUT", "CONNECTION_ERROR", "DNS_ERROR"} then Network
    else Exchange
  }

  function NormalizeError(sourceCode: Option<string>, message: string): NormalizedError {
    var category := CategoryOf(sourceCode);
    NormalizedError(category, category !in {Auth, Validation}, sourceCode, message)
  }

  function NormalizeHttpError(status: int, message: string): NormalizedError {
    if status == 401 || status == 403 then NormalizeError(Some("AUTH_FAILED"), message)
    else if status == 429 then NormalizeError(Some("RATE_LIMIT"), message)
    else if 400 <= status < 500 then NormalizeError(Some("INVALID_PARAM"), message)
    else NormalizeError(Some("EXCHANGE_ERROR"), message)
  }

  // The codes the adapter itself passes are already in upper case.
  lemma OwnCodes()
    ensures CategoryOf(Some("AUTH_FAILED")) == Auth
    ensures CategoryOf(Some("RATE_LIMIT")) == RateLimit
    ensures CategoryOf(Some("INVALID_PARAM")) == Validation
    ensures CategoryOf(Some("NETWORK_TIMEOUT")) == Network
    ensures CategoryOf(Some("EXCHANGE_ERROR")) == Exchange
  {
    assert Upper("AUTH_FAILED") == "AUTH_FAILED";
    assert Upper("RATE_LIMIT") == "RATE_LIMIT";
    assert Upper("INVALID_PARAM") == "INVALID_PARAM";
    assert Upper("NETWORK_TIMEOUT") == "NETWORK_TIMEOUT";
    assert Upper("EXCHANGE_ERROR") == "EXCHANGE_ERROR";
  }

  // The two texts are the same but for the case of ASCII letters, `code` being in upper case.
  predicate Spells(text: string, code: string) {
    |text| == |code| && forall i | 0 <= i < |text| ::
      text[i] == code[i] || ('a' <= text[i] <= 'z' && text[i] as int - 32 == code[i] as int)
  }

  predicate UpperCase(code: string) {
    forall i | 0 <= i < |code| :: !('a' <= code[i] <= 'z')
  }

  lemma UpperSpells(text: string, code: string)
    requires UpperCase(code)
    ensures Upper(text) == code <==> Spells(text, code)
  {
    if Spells(text, code) {
      assert forall i | 0 <= i < |text| :: Upper(text)[i] == code[i];
    }
    if Upper(text) == code {
      assert forall i | 0 <= i < |text| :: Upper(text)[i] == code[i];
    }
  }

  lemma AuthCodes(text: string)
    ensures CategoryOf(Some(text)) == Auth <==>
            Spells(text, "AUTH_FAILED") || Spells(text, "INVALID_API_KEY") || Spells(text, "UNAUTHORIZED")
  {
    UpperSpells(text, "AUTH_FAILED");
    UpperSpells(text, "INVALID_API_KEY");
    UpperSpells(text, "UNAUTHORIZED");
  }

  lemma RateLimitCodes(text: string)
    ensures CategoryOf(Some(text)) == RateLimit <==>
            Spells(text, "RATE_LIMIT") || Spells(text, "TOO_MANY_REQUESTS") || Spells(text, "THROTTLED")
  {
    UpperSpells(text, "RATE_LIMIT");
    UpperSpells(text, "TOO_MANY_REQUESTS");
    UpperSpells(text, "THROTTLED");
  }

  lemma ValidationCodes(text: string)
    ensures CategoryOf(Some(text)) == Validation <==>
            Spells(text, "INVALID_PARAM") || Spells(text, "BAD_REQUEST") || Spells(text, "INSUFFICIENT_MARGIN") || Spells(text, "INVALID_RESPONSE")
  {
    UpperSpells(text, "INVALID_PARAM");
    UpperSpells(text, "BAD_REQUEST");
    UpperSpells(text, "INSUFFICIENT_MARGIN");
    UpperSpells(text, "INVALID_RESPONSE");
  }

  lemma NetworkCodes(text: string)
    ensures CategoryOf(Some(text)) == Network <==>
            Spells(text, "NETWORK_TIMEOUT") || Spells(text, "CONNECTION_ERROR") || Spells(text, "DNS_ERROR")
  {
    UpperSpells(text, "NETWORK_TIMEOUT");
    UpperSpells(text, "CONNECTION_ERROR");
    UpperSpells(text, "DNS_ERROR");
  }

  // Which source codes make which category, in any letter case.
  lemma CategoriesByCode(text: string)
    ensures CategoryOf(Some(text)) == Auth <==>
            Spells(text, "AUTH_FAILED") || Spells(text, "INVALID_API_KEY") || Spells(text, "UNAUTHORIZED")
    ensures CategoryOf(Some(text)) == RateLimit <==>
            Spells(text, "RATE_LIMIT") || Spells(text, "TOO_MANY_REQUESTS") || Spells(text, "THROTTLED")
    ensures CategoryOf(Some(text)) == Validation <==>
            Spells(text, "INVALID_PARAM") || Spells(text, "BAD_REQUEST") || Spells(text, "INSUFFICIENT_MARGIN") || Spells(text, "INVALID_RESPONSE")
    ensures CategoryOf(Some(text)) == Network <==>
            Spells(text, "NETWORK_TIMEOUT") || Spells(text, "CONNECTION_ERROR") || Spells(text, "DNS_ERROR")
    ensures CategoryOf(None) == Exchange
  {
    AuthCodes(text);
    RateLimitCodes(text);
    ValidationCodes(text);
    NetworkCodes(text);
  }

  lemma HttpCategories(status: int, message: string)
    ensures var c := NormalizeHttpError(status, message).category;
            && (c == Auth <==> status in {401, 403})
            && (c == RateLimit <==> status == 429)
            && (c == Validation <==> 400 <= status < 500 && status !in {401, 403, 429})
            && (c == Exchange <==> !(400 <= status < 500))
  {
    OwnCodes();
  }
}
