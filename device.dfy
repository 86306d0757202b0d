/**
 * The app's external collaborators as the core sees them: the on-device
 * key-value store (AsyncStorage), the authentication provider, the document
 * database, alerts and navigation. Each awaited call either resolves or
 * rejects; which one is decided outside the app, so it is a parameter of
 * every call. Every call the app makes is appended to a log, so the order of
 * the steps of a handler can be stated and proved.
 */
module Device {
  import opened Wrappers

  /** The one storage key the app uses for its session token. */
  const TokenKey := "usertoken"

  /** How an awaited external call ends. A rejection carries the `code`
      property of the thrown error, which non-Firebase errors lack. */
  datatype Outcome = Resolved | Rejected(code: Option<string>)

  /** One externally visible step. */
  datatype Effect =
    | StorageSet(key: string, value: string)
    | StorageGet(key: string)
    | StorageRemove(key: string)
    | SignInRequest(email: string, password: string)
    | CreateUserRequest(email: string, password: string)
    | SignOutRequest
    | ProfileWrite(email: string)
    | TaskCreate(title: string, description: string, dueDate: int, priority: string, completed: bool)
    | TaskDelete(id: string)
    | ShowAlert(title: string, message: string)
    | Notify(message: string)
    | Navigate(route: string)

  /** `getItem`: the stored string, or null when the key is absent. */
  function Lookup(storage: map<string, string>, key: string): (r: Option<string>)
    ensures r.Some? <==> key in storage
    ensures r.Some? ==> r.value == storage[key]
  {
    if key in storage then Some(storage[key]) else None
  }

  /** The store after `setItem(key, value)` ended with `outcome`. */
  function AfterSet(storage: map<string, string>, key: string, value: string, outcome: Outcome): (r: map<string, string>)
    ensures outcome.Resolved? ==> Lookup(r, key) == Some(value)
    ensures outcome.Rejected? ==> r == storage
    ensures forall k :: k != key ==> Lookup(r, k) == Lookup(storage, k)
  {
    if outcome.Resolved? then storage[key := value] else storage
  }

  /** The store after `removeItem(key)` ended with `outcome`. */
  function AfterRemove(storage: map<string, string>, key: string, outcome: Outcome): (r: map<string, string>)
    ensures outcome.Resolved? ==> Lookup(r, key) == None
    ensures outcome.Rejected? ==> r == storage
    ensures forall k :: k != key ==> Lookup(r, k) == Lookup(storage, k)
  {
    if outcome.Resolved? then storage - {key} else storage
  }

  // ---------------------------------------------------------------------
  // JSON.stringify of the `{email, password}` record stored as the token

  const HexDigits := "0123456789abcdef"

  /** JSON's escape of one character inside a string literal: the
      character itself, or a backslash sequence of printable characters. */
  function EscapeChar(c: char): (r: string)
    ensures |r| > 0
    ensures r == [c] || r[0] == '\\'
    ensures forall k :: 0 <= k < |r| ==> ' ' <= r[k]
  {
    if c == '"' then "\\\""
    else if c == '\\' then "\\\\"
    else if c == '\U{8}' then "\\b"
    else if c == '\t' then "\\t"
    else if c == '\n' then "\\n"
    else if c == '\U{C}' then "\\f"
    else if c == '\r' then "\\r"
    else if c < ' ' then "\\u00" + [HexDigits[c as int / 16], HexDigits[c as int % 16]]
    else [c]
  }

  /** JSON's escape of a whole string: each character escaped in turn. The
      result holds no control character. */
  function Escape(s: string): (r: string)
    ensures forall k :: 0 <= k < |r| ==> ' ' <= r[k]
  {
    if |s| == 0 then "" else EscapeChar(s[0]) + Escape(s[1..])
  }

  /** The value of a hexadecimal digit, either case; `None` for any other
      character. */
  function HexValue(d: char): (n: Option<nat>)
    ensures n.Some? ==> n.value < 16
  {
    if '0' <= d <= '9' then Some(d as int - '0' as int)
    else if 'a' <= d <= 'f' then Some(d as int - 'a' as int + 10)
    else if 'A' <= d <= 'F' then Some(d as int - 'A' as int + 10)
    else None
  }

  /** The code unit written by four hexadecimal digits after `\u`; `None`
      when one of them is not a digit or the value is a lone surrogate,
      which a Dafny `char` cannot hold. */
  function CodeUnit(a: char, b: char, c: char, d: char): (r: Option<char>)
    ensures r.Some? ==> HexValue(a).Some? && HexValue(b).Some? && HexValue(c).Some? && HexValue(d).Some?
  {
    match (HexValue(a), HexValue(b), HexValue(c), HexValue(d))
    case (Some(w), Some(x), Some(y), Some(z)) =>
      var n := 4096 * w + 256 * x + 16 * y + z;
      if 0xD800 <= n < 0xE000 then None else Some(n as char)
    case _ => None
  }

  /** The character a one-letter backslash sequence stands for; `None` for a
      letter JSON does not define. */
  function EscapeLetter(e: char): (r: Option<char>) {
    if e == '"' then Some('"')
    else if e == '\\' then Some('\\')
    else if e == '/' then Some('/')
    else if e == 'b' then Some('\U{8}')
    else if e == 't' then Some('\t')
    else if e == 'n' then Some('\n')
    else if e == 'f' then Some('\U{C}')
    else if e == 'r' then Some('\r')
    else None
  }

  /** One more character in front of what the rest of a literal read to. */
  function Prepend(c: char, r: Option<(string, string)>): (p: Option<(string, string)>) {
    match r
    case None => None
    case Some((body, after)) => Some(([c] + body, after))
  }

  /** Reading a JSON string literal whose opening quote has been consumed:
      the characters it stands for, and the text after its closing quote.
      `None` when the text ends first, or holds an escape JSON does not
      define, or a raw control character. */
  function ReadLiteral(s: string): (r: Option<(string, string)>)
    ensures r.Some? ==> |r.value.1| < |s|
    decreases |s|
  {
    if |s| == 0 || s[0] < ' ' then None
    else if s[0] == '"' then Some(("", s[1..]))
    else if s[0] != '\\' then Prepend(s[0], ReadLiteral(s[1..]))
    else if |s| >= 6 && s[1] == 'u' then
      match CodeUnit(s[2], s[3], s[4], s[5])
      case None => None
      case Some(c) => Prepend(c, ReadLiteral(s[6..]))
    else if |s| >= 2 && EscapeLetter(s[1]).Some? then
      Prepend(EscapeLetter(s[1]).value, ReadLiteral(s[2..]))
    else None
  }

  lemma HexDigitValue(i: nat)
    requires i < 16
    ensures HexValue(HexDigits[i]) == Some(i)
  {
  }

  /** A character JSON writes as a backslash and one letter. */
  predicate LetterEscaped(c: char) {
    c == '"' || c == '\\' || c == '\U{8}' || c == '\t' || c == '\n' || c == '\U{C}' || c == '\r'
  }

  /** Reading back a control character written as `\u00` and two digits. */
  lemma ReadCoded(c: char, rest: string)
    requires c < ' ' && !LetterEscaped(c)
    ensures ReadLiteral(EscapeChar(c) + rest) == Prepend(c, ReadLiteral(rest))
  {
    var hi := c as int / 16;
    var lo := c as int % 16;
    var e := EscapeChar(c) + rest;
    assert e == "\\u00" + [HexDigits[hi], HexDigits[lo]] + rest;
    HexDigitValue(hi);
    HexDigitValue(lo);
    assert e[2] == '0' && e[3] == '0' && e[4] == HexDigits[hi] && e[5] == HexDigits[lo];
    assert CodeUnit(e[2], e[3], e[4], e[5]) == Some(c);
    assert e[6..] == rest;
  }

  /** Reading back one escaped character, whatever follows it. */
  lemma ReadOne(c: char, rest: string)
    ensures ReadLiteral(EscapeChar(c) + rest) == Prepend(c, ReadLiteral(rest))
  {
    var e := EscapeChar(c) + rest;
    if LetterEscaped(c) {
      assert e[2..] == rest;
    } else if c < ' ' {
      ReadCoded(c, rest);
    } else {
      assert e[1..] == rest;
    }
  }

  /** JSON escaping loses nothing: reading the escaped text back up to the
      closing quote gives the original string, and stops exactly there. */
  lemma {:induction false} EscapeRoundTrip(s: string, rest: string)
    ensures ReadLiteral(Escape(s) + "\"" + rest) == Some((s, rest))
  {
    if |s| == 0 {
      assert Escape(s) + "\"" + rest == "\"" + rest;
      assert ("\"" + rest)[1..] == rest;
    } else {
      var tail := Escape(s[1..]) + "\"" + rest;
      assert Escape(s) + "\"" + rest == EscapeChar(s[0]) + tail;
      ReadOne(s[0], tail);
      EscapeRoundTrip(s[1..], rest);
      assert s == [s[0]] + s[1..];
    }
  }

  /** The fixed text around the two credentials in the stored record. */
  const TokenHead := "{\"email\":\""
  const TokenMiddle := ",\"password\":\""

  /** `JSON.stringify({ email, password })`. */
  function UserToken(email: string, password: string): (r: string)
    ensures |r| > 0
  {
    TokenHead + Escape(email) + "\"" + TokenMiddle + Escape(password) + "\"}"
  }

  /** Reading a token back the way `JSON.parse` of the stored record would:
      the two credentials, when the text has exactly the record's shape. */
  function ReadToken(t: string): (r: Option<(string, string)>) {
    if |t| < |TokenHead| || t[..|TokenHead|] != TokenHead then None
    else match ReadLiteral(t[|TokenHead|..])
    case None => None
    case Some((email, after)) =>
      if |after| < |TokenMiddle| || after[..|TokenMiddle|] != TokenMiddle then None
      else match ReadLiteral(after[|TokenMiddle|..])
      case None => None
      case Some((password, last)) => if last == "}" then Some((email, password)) else None
  }

  /** Splitting a text after a known head. */
  lemma SplitAfter(head: string, body: string)
    ensures (head + body)[..|head|] == head && (head + body)[|head|..] == body
  {
  }

  /** What `ReadToken` needs of a text: the head, a literal, the middle,
      a literal, and the closing brace. */
  lemma ReadTokenOf(email: string, password: string, first: string, after: string, second: string)
    requires ReadLiteral(first) == Some((email, after))
    requires after == TokenMiddle + second
    requires ReadLiteral(second) == Some((password, "}"))
    ensures ReadToken(TokenHead + first) == Some((email, password))
  {
    SplitAfter(TokenHead, first);
    SplitAfter(TokenMiddle, second);
  }

  /** The stored token reads back as the very credentials it was made from. */
  lemma TokenRoundTrip(email: string, password: string)
    ensures ReadToken(UserToken(email, password)) == Some((email, password))
  {
    var second := Escape(password) + "\"" + "}";
    var after := TokenMiddle + second;
    var first := Escape(email) + "\"" + after;
    EscapeRoundTrip(email, after);
    EscapeRoundTrip(password, "}");
    ReadTokenOf(email, password, first, after, second);
    assert "\"}" == "\"" + "}";
    Regroup(TokenHead, Escape(email), "\"", TokenMiddle, Escape(password), "\"", "}");
  }

  /** The token's pieces, regrouped from the right. */
  lemma Regroup(a: string, b: string, c: string, d: string, e: string, f: string, g: string)
    ensures a + b + c + d + e + (f + g) == a + (b + c + (d + (e + f + g)))
  {
  }

  /** Two sign-ins store the same token only with the same credentials. */
  lemma UserTokenInjective(e1: string, p1: string, e2: string, p2: string)
    requires UserToken(e1, p1) == UserToken(e2, p2)
    ensures e1 == e2 && p1 == p2
  {
    TokenRoundTrip(e1, p1);
    TokenRoundTrip(e2, p2);
  }

  /** Appending one more step to the steps a handler has taken so far. */
  lemma Appended(prefix: seq<Effect>, done: seq<Effect>, e: Effect)
    ensures prefix + done + [e] == prefix + (done + [e])
  {
  }

  /** The device: what is stored under each key, and the log of every
      external call made so far. */
  class Device {
    var storage: map<string, string>
    var log: seq<Effect>

    constructor (initial: map<string, string>)
      ensures storage == initial && log == []
    {
      storage := initial;
      log := [];
    }

    /** A call that does not touch the store: an auth or database request,
        an alert, a navigation. */
    method Emit(e: Effect)
      modifies this
      requires !e.StorageSet? && !e.StorageGet? && !e.StorageRemove?
      ensures log == old(log) + [e]
      ensures storage == old(storage)
    {
      log := log + [e];
    }

    /** `AsyncStorage.setItem(key, value)`. */
    method SetItem(key: string, value: string, outcome: Outcome)
      modifies this
      ensures log == old(log) + [StorageSet(key, value)]
      ensures storage == AfterSet(old(storage), key, value, outcome)
    {
      log := log + [StorageSet(key, value)];
      storage := AfterSet(storage, key, value, outcome);
    }

    /** `AsyncStorage.getItem(key)`; the value is meaningful only when the
        call resolves. */
    method GetItem(key: string, outcome: Outcome) returns (value: Option<string>)
      modifies this
      ensures log == old(log) + [StorageGet(key)]
      ensures storage == old(storage)
      ensures value == if outcome.Resolved? then Lookup(storage, key) else None
    {
      log := log + [StorageGet(key)];
      value := if outcome.Resolved? then Lookup(storage, key) else None;
    }

    /** `AsyncStorage.removeItem(key)`. */
    method RemoveItem(key: string, outcome: Outcome)
      modifies this
      ensures log == old(log) + [StorageRemove(key)]
      ensures storage == AfterRemove(old(storage), key, outcome)
    {
      log := log + [StorageRemove(key)];
      storage := AfterRemove(storage, key, outcome);
    }
  }
}
