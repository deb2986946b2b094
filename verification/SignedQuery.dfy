/**
 Query strings, and what a signed request signs and sends.  Parameters live in a hash map, so a loop over them
 sees its keys in some order that may change whenever the map does; orders are parameters here.
 HMAC is an arbitrary function from key and text to digest bytes.
 */
module SignedQuery {
  import opened Wrappers
  import opened Strings

  datatype Pair = Pair(key: string, value: string)

  type Byte = n: nat | n < 256

  // ---------------------------------------------------------------------------------------------
  // Building

  function Item(p: Pair): string {
    p.key + "=" + p.value
  }

  /** Items with `&` between them. */
  function Join(pairs: seq<Pair>): string {
    if pairs == [] then ""
    else if |pairs| == 1 then Item(pairs[0])
    else Item(pairs[0]) + "&" + Join(pairs[1..])
  }

  lemma {:induction false} JoinAppend(pairs: seq<Pair>, p: Pair)
    ensures Join(pairs + [p]) == if pairs == [] then Item(p) else Join(pairs) + "&" + Item(p)
  {
    if pairs != [] {
      assert (pairs + [p])[1..] == pairs[1..] + [p];
      JoinAppend(pairs[1..], p);
    }
  }

  lemma JoinNonEmpty(pairs: seq<Pair>)
    requires pairs != []
    ensures Join(pairs) != ""
  {
    assert '=' in Item(pairs[0]);
  }

  /** A separator is due exactly when the string so far is not empty, since every item has a `=`. */
  lemma JoinStep(pairs: seq<Pair>, i: nat)
    requires i < |pairs|
    ensures var query := Join(pairs[..i]);
      Join(pairs[..i + 1]) == (if query != "" then query + "&" else query) + pairs[i].key + "=" + pairs[i].value
  {
    var before, p := pairs[..i], pairs[i];
    assert pairs[..i + 1] == before + [p];
    JoinAppend(before, p);
    if i > 0 {
      JoinNonEmpty(before);
      assert Join(before) + "&" + (p.key + "=" + p.value) == Join(before) + "&" + p.key + "=" + p.value;
    } else {
      assert "" + p.key + "=" + p.value == p.key + "=" + p.value;
    }
  }

  /** The loop that the signer, the HTTP client and the form body share; it separates by testing for emptiness. */
  method BuildQueryString(pairs: seq<Pair>) returns (query: string)
    ensures query == Join(pairs)
  {
    query := "";
    for i := 0 to |pairs|
      invariant query == Join(pairs[..i])
    {
      JoinStep(pairs, i);
      if query != "" {
        query := query + "&";
      }
      query := query + pairs[i].key;
      query := query + "=";
      query := query + pairs[i].value;
    }
    assert pairs[..|pairs|] == pairs;
  }

  // ---------------------------------------------------------------------------------------------
  // Parsing

  function ParseItem(s: string): Pair {
    match Find(s, '=')
    case None => Pair(s, "")
    case Some(i) => Pair(s[..i], s[i + 1..])
  }

  function ParseItems(s: string): seq<Pair>
    decreases |s|
  {
    match Find(s, '&')
    case None => [ParseItem(s)]
    case Some(i) => [ParseItem(s[..i])] + ParseItems(s[i + 1..])
  }

  function Parse(query: string): seq<Pair> {
    if query == "" then [] else ParseItems(query)
  }

  predicate CleanPair(p: Pair) {
    '&' !in p.key && '=' !in p.key && '&' !in p.value
  }

  predicate Clean(pairs: seq<Pair>) {
    forall i :: 0 <= i < |pairs| ==> CleanPair(pairs[i])
  }

  lemma ParseItemOfItem(p: Pair)
    requires CleanPair(p)
    ensures ParseItem(Item(p)) == p && '&' !in Item(p)
  {
    FindAt(p.key, '=', p.value);
    assert p.key + "=" + p.value == p.key + ['='] + p.value;
    assert Item(p)[..|p.key|] == p.key && Item(p)[|p.key| + 1..] == p.value;
  }

  lemma ParseItemsCons(item: string, tail: string)
    requires '&' !in item
    ensures ParseItems(item + ['&'] + tail) == [ParseItem(item)] + ParseItems(tail)
  {
    var s := item + ['&'] + tail;
    FindAt(item, '&', tail);
    assert s[..|item|] == item && s[|item| + 1..] == tail;
  }

  lemma {:induction false} ParseItemsOfJoin(pairs: seq<Pair>)
    requires pairs != [] && Clean(pairs)
    ensures ParseItems(Join(pairs)) == pairs
    decreases |pairs|
  {
    ParseItemOfItem(pairs[0]);
    if |pairs| == 1 {
      FindIsFirst(Join(pairs), '&');
    } else {
      ParseItemsOfJoin(pairs[1..]);
      ParseItemsCons(Item(pairs[0]), Join(pairs[1..]));
    }
  }

  lemma ParseItemIsClean(s: string)
    requires '&' !in s
    ensures CleanPair(ParseItem(s))
  {
    FindIsFirst(s, '=');
  }

  lemma {:induction false} ParseItemsIsClean(s: string)
    ensures Clean(ParseItems(s))
    decreases |s|
  {
    FindIsFirst(s, '&');
    match Find(s, '&')
    case None => ParseItemIsClean(s);
    case Some(i) =>
      ParseItemIsClean(s[..i]);
      ParseItemsIsClean(s[i + 1..]);
  }

  /**
   Parsing undoes building exactly for keys without `&` and `=` and values without `&`: empty keys and values
   and values with `=` come back, everything else does not.
   */
  lemma ParseOfJoin(pairs: seq<Pair>)
    ensures Parse(Join(pairs)) == pairs <==> Clean(pairs)
  {
    ParseItemsIsClean(Join(pairs));
    if pairs != [] && Clean(pairs) {
      JoinNonEmpty(pairs);
      ParseItemsOfJoin(pairs);
    }
  }

  // ---------------------------------------------------------------------------------------------
  // Maps and iteration orders

  ghost predicate Enumerates(order: seq<string>, params: map<string, string>) {
    && (forall i, j :: 0 <= i < j < |order| ==> order[i] != order[j])
    && (forall k :: k in order <==> k in params)
  }

  function Entries(order: seq<string>, params: map<string, string>): (pairs: seq<Pair>)
    requires forall i :: 0 <= i < |order| ==> order[i] in params
    ensures |pairs| == |order|
    ensures forall i :: 0 <= i < |order| ==> pairs[i] == Pair(order[i], params[order[i]])
  {
    seq(|order|, i requires 0 <= i < |order| => Pair(order[i], params[order[i]]))
  }

  function ToMap(pairs: seq<Pair>): map<string, string> {
    if pairs == [] then map[]
    else ToMap(pairs[..|pairs| - 1])[pairs[|pairs| - 1].key := pairs[|pairs| - 1].value]
  }

  ghost predicate CleanMap(params: map<string, string>) {
    forall k :: k in params ==> CleanPair(Pair(k, params[k]))
  }

  lemma {:induction false} ToMapOfEntries(order: seq<string>, params: map<string, string>)
    requires forall i, j :: 0 <= i < j < |order| ==> order[i] != order[j]
    requires forall i :: 0 <= i < |order| ==> order[i] in params
    ensures forall k :: k in ToMap(Entries(order, params)) <==> k in order
    ensures forall k :: k in order ==> ToMap(Entries(order, params))[k] == params[k]
    decreases |order|
  {
    if order != [] {
      var init := order[..|order| - 1];
      ToMapOfEntries(init, params);
      var pairs := Entries(order, params);
      assert pairs[..|pairs| - 1] == Entries(init, params);
      assert forall k :: k in order <==> k in init || k == order[|order| - 1];
    }
  }

  lemma CleanEntries(order: seq<string>, params: map<string, string>)
    requires CleanMap(params) && forall i :: 0 <= i < |order| ==> order[i] in params
    ensures Clean(Entries(order, params))
  {
  }

  lemma ToMapOfEnumeration(order: seq<string>, params: map<string, string>)
    requires Enumerates(order, params)
    ensures ToMap(Entries(order, params)) == params
  {
    ToMapOfEntries(order, params);
    assert ToMap(Entries(order, params)).Keys == params.Keys;
  }

  /** Whatever order the map was walked in, parsing the query string gives the map back. */
  lemma QueryRoundTrip(order: seq<string>, params: map<string, string>)
    requires Enumerates(order, params) && CleanMap(params)
    ensures ToMap(Parse(Join(Entries(order, params)))) == params
  {
    CleanEntries(order, params);
    ParseOfJoin(Entries(order, params));
    ToMapOfEnumeration(order, params);
  }

  // ---------------------------------------------------------------------------------------------
  // Hexadecimal digest

  function HexDigit(n: nat): char
    requires n < 16
  {
    "0123456789abcdef"[n]
  }

  /** A number as the stream prints it in base 16, without leading zeros. */
  function HexNumber(n: nat): string {
    if n < 16 then [HexDigit(n)] else HexNumber(n / 16) + [HexDigit(n % 16)]
  }

  function PadToTwo(s: string): string {
    if |s| < 2 then seq(2 - |s|, _ => '0') + s else s
  }

  function Hex(digest: seq<Byte>): string {
    if digest == [] then "" else PadToTwo(HexNumber(digest[0])) + Hex(digest[1..])
  }

  lemma {:induction false} HexAppend(digest: seq<Byte>, b: Byte)
    ensures Hex(digest + [b]) == Hex(digest) + PadToTwo(HexNumber(b))
  {
    if digest != [] {
      assert (digest + [b])[1..] == digest[1..] + [b];
      HexAppend(digest[1..], b);
    }
  }

  lemma HexStep(digest: seq<Byte>, i: nat)
    requires i < |digest|
    ensures Hex(digest[..i + 1]) == Hex(digest[..i]) + PadToTwo(HexNumber(digest[i]))
  {
    HexAppend(digest[..i], digest[i]);
    assert digest[..i + 1] == digest[..i] + [digest[i]];
  }

  method HexEncode(digest: seq<Byte>) returns (hex: string)
    ensures hex == Hex(digest)
  {
    hex := "";
    for i := 0 to |digest|
      invariant hex == Hex(digest[..i])
    {
      HexStep(digest, i);
      hex := hex + PadToTwo(HexNumber(digest[i]));
    }
    assert digest[..|digest|] == digest;
  }

  function DigitValue(c: char): Option<nat> {
    if '0' <= c <= '9' then Some((c - '0') as nat)
    else if 'a' <= c <= 'f' then Some((c - 'a') as nat + 10)
    else None
  }

  function HexDecode(s: string): Option<seq<nat>> {
    if s == "" then Some([])
    else if |s| == 1 then None
    else match (DigitValue(s[0]), DigitValue(s[1]), HexDecode(s[2..])) {
      case (Some(a), Some(b), Some(rest)) => Some([16 * a + b] + rest)
      case _ => None
    }
  }

  lemma DigitValueOfDigit(n: nat)
    requires n < 16
    ensures DigitValue(HexDigit(n)) == Some(n)
  {
  }

  lemma PaddedByte(b: Byte)
    ensures PadToTwo(HexNumber(b)) == [HexDigit(b / 16), HexDigit(b % 16)]
  {
  }

  lemma DecodeDigits(high: nat, low: nat, rest: string)
    requires high < 16 && low < 16 && HexDecode(rest).Some?
    ensures HexDecode([HexDigit(high), HexDigit(low)] + rest) == Some([16 * high + low] + HexDecode(rest).value)
  {
    DigitValueOfDigit(high);
    DigitValueOfDigit(low);
    assert ([HexDigit(high), HexDigit(low)] + rest)[2..] == rest;
  }

  lemma DecodeByte(b: Byte, rest: string)
    requires HexDecode(rest).Some?
    ensures HexDecode(PadToTwo(HexNumber(b)) + rest) == Some([b as nat] + HexDecode(rest).value)
  {
    PaddedByte(b);
    DecodeDigits(b / 16, b % 16, rest);
  }

  /** The signature is two lower-case hex digits a byte and decodes to the digest. */
  lemma {:induction false} HexRoundTrip(digest: seq<Byte>)
    ensures HexDecode(Hex(digest)) == Some(digest)
    ensures |Hex(digest)| == 2 * |digest|
  {
    if digest != [] {
      HexRoundTrip(digest[1..]);
      DecodeByte(digest[0], Hex(digest[1..]));
      PaddedByte(digest[0]);
      assert [digest[0] as nat] + digest[1..] == digest;
    }
  }

  lemma {:induction false} DecodedHasDigits(s: string)
    requires HexDecode(s).Some?
    ensures forall i :: 0 <= i < |s| ==> DigitValue(s[i]).Some?
  {
    if s != "" { DecodedHasDigits(s[2..]); }
  }

  lemma HexIsClean(digest: seq<Byte>)
    ensures '&' !in Hex(digest)
  {
    assert DigitValue('&') == None;
    HexRoundTrip(digest);
    DecodedHasDigits(Hex(digest));
  }

  function Decimal(n: nat): string {
    if n < 10 then ["0123456789"[n]] else Decimal(n / 10) + ["0123456789"[n % 10]]
  }

  /** Reads decimal digits from left to right. */
  function DecimalValue(s: string): Option<nat> {
    if s == "" then Some(0)
    else
      var last := s[|s| - 1];
      match DecimalValue(s[..|s| - 1])
      case Some(n) => if '0' <= last <= '9' then Some(10 * n + (last - '0') as nat) else None
      case None => None
  }

  lemma ReadOneMore(s: string, n: nat, digit: nat)
    requires digit < 10 && DecimalValue(s) == Some(n)
    ensures DecimalValue(s + ["0123456789"[digit]]) == Some(10 * n + digit)
  {
    var t := s + ["0123456789"[digit]];
    assert t[..|t| - 1] == s && t[|t| - 1] == "0123456789"[digit];
    DigitCharacter(digit);
  }

  lemma DigitCharacter(digit: nat)
    requires digit < 10
    ensures var d := "0123456789"[digit]; '0' <= d <= '9' && (d - '0') as nat == digit && (d == '0' <==> digit == 0)
  {
  }

  lemma {:induction false} DecimalDigits(n: nat)
    ensures Decimal(n) != "" && forall i :: 0 <= i < |Decimal(n)| ==> '0' <= Decimal(n)[i] <= '9'
    ensures n > 0 || |Decimal(n)| > 1 ==> Decimal(n)[0] != '0'
  {
    DigitCharacter(n % 10);
    if n >= 10 { DecimalDigits(n / 10); }
  }

  lemma {:induction false} DecimalReads(n: nat)
    ensures DecimalValue(Decimal(n)) == Some(n)
  {
    if n < 10 {
      ReadOneMore("", 0, n);
      assert "" + ["0123456789"[n]] == Decimal(n);
    } else {
      DecimalReads(n / 10);
      ReadOneMore(Decimal(n / 10), n / 10, n % 10);
    }
  }

  /** The text reads back as the number, consists of digits and has no leading zero. */
  lemma DecimalReadsBack(n: nat)
    ensures Decimal(n) != "" && DecimalValue(Decimal(n)) == Some(n)
    ensures forall i :: 0 <= i < |Decimal(n)| ==> '0' <= Decimal(n)[i] <= '9'
    ensures n > 0 || |Decimal(n)| > 1 ==> Decimal(n)[0] != '0'
  {
    DecimalDigits(n);
    DecimalReads(n);
  }

  lemma DecimalIsClean(n: nat)
    ensures '&' !in Decimal(n)
  {
    DecimalReadsBack(n);
  }

  // ---------------------------------------------------------------------------------------------
  // Signing and sending

  function Stamped(params: map<string, string>, ms: nat): map<string, string> {
    params["timestamp" := Decimal(ms)]
  }

  /** `sign_parameters`: the stamped map in iteration order `order` is signed, and the signature added. */
  method SignParameters(params: map<string, string>, ms: nat, order: seq<string>, secret: string,
                        hmac: (string, string) -> seq<Byte>)
      returns (signed: map<string, string>, query: string)
    requires Enumerates(order, Stamped(params, ms))
    ensures query == Join(Entries(order, Stamped(params, ms)))
    ensures signed.Keys == params.Keys + {"timestamp", "signature"}
    ensures forall k :: k in params && k != "timestamp" && k != "signature" ==> signed[k] == params[k]
    ensures signed["timestamp"] == Decimal(ms) && DecimalValue(signed["timestamp"]) == Some(ms)
    ensures signed["signature"] == Hex(hmac(secret, query))
    ensures HexDecode(signed["signature"]) == Some(hmac(secret, query))
  {
    DecimalReadsBack(ms);
    signed := params;
    signed := signed["timestamp" := Decimal(ms)];
    query := BuildQueryString(Entries(order, signed));
    var signature := HexEncode(hmac(secret, query));
    HexRoundTrip(hmac(secret, query));
    signed := signed["signature" := signature];
  }

  function WithoutSignature(pairs: seq<Pair>): seq<Pair> {
    if pairs == [] then []
    else (if pairs[0].key == "signature" then [] else [pairs[0]]) + WithoutSignature(pairs[1..])
  }

  function KeysWithoutSignature(order: seq<string>): (keys: seq<string>)
    ensures forall i :: 0 <= i < |keys| ==> keys[i] in order && keys[i] != "signature"
  {
    if order == [] then []
    else (if order[0] == "signature" then [] else [order[0]]) + KeysWithoutSignature(order[1..])
  }

  /** What the server checks the signature against: the received string less its signature pair. */
  function StripSignature(sent: string): string {
    Join(WithoutSignature(Parse(sent)))
  }

  lemma {:induction false} StripEntries(order: seq<string>, params: map<string, string>)
    requires forall i :: 0 <= i < |order| ==> order[i] in params
    ensures WithoutSignature(Entries(order, params)) == Entries(KeysWithoutSignature(order), params)
  {
    if order != [] {
      StripEntries(order[1..], params);
      assert Entries(order, params)[1..] == Entries(order[1..], params);
    }
  }

  lemma CleanUpdate(params: map<string, string>, key: string, value: string)
    requires CleanMap(params) && CleanPair(Pair(key, value))
    ensures CleanMap(params[key := value])
  {
  }

  lemma CleanSigned(params: map<string, string>, ms: nat, digest: seq<Byte>)
    requires CleanMap(params)
    ensures CleanMap(Stamped(params, ms)) && CleanMap(Stamped(params, ms)["signature" := Hex(digest)])
  {
    DecimalIsClean(ms);
    HexIsClean(digest);
    CleanUpdate(params, "timestamp", Decimal(ms));
    CleanUpdate(Stamped(params, ms), "signature", Hex(digest));
  }

  lemma StripOfJoin(order: seq<string>, params: map<string, string>)
    requires CleanMap(params) && forall i :: 0 <= i < |order| ==> order[i] in params
    ensures StripSignature(Join(Entries(order, params))) == Join(Entries(KeysWithoutSignature(order), params))
  {
    CleanEntries(order, params);
    ParseOfJoin(Entries(order, params));
    StripEntries(order, params);
  }

  /** Two clean lists of entries build the same string iff they have the same keys, over maps that agree on them. */
  lemma SameStringSameOrder(o: seq<string>, o': seq<string>, m: map<string, string>, m': map<string, string>)
    requires forall i :: 0 <= i < |o| ==> o[i] in m
    requires forall i :: 0 <= i < |o'| ==> o'[i] in m'
    requires Clean(Entries(o, m)) && Clean(Entries(o', m'))
    requires forall k :: k in o && k in m' ==> m[k] == m'[k]
    ensures Join(Entries(o, m)) == Join(Entries(o', m')) <==> o == o'
  {
    ParseOfJoin(Entries(o, m));
    ParseOfJoin(Entries(o', m'));
    if Entries(o, m) == Entries(o', m') {
      forall i | 0 <= i < |o| ensures o[i] == o'[i] {
        assert Entries(o, m)[i] == Entries(o', m')[i];
      }
    }
    if o == o' {
      forall i | 0 <= i < |o| ensures Entries(o, m)[i] == Entries(o', m')[i] {
        assert o[i] in o;
      }
    }
  }

  /**
   Of a signed request, the sent string less its signature is the string that was signed iff the order in which
   the map is walked for sending, less the signature key, is the order in which it was walked for signing.
   */
  lemma SignedStringIsSent(params: map<string, string>, ms: nat, signOrder: seq<string>, sendOrder: seq<string>,
                           digest: seq<Byte>)
    requires CleanMap(params)
    requires Enumerates(signOrder, Stamped(params, ms))
    requires Enumerates(sendOrder, Stamped(params, ms)["signature" := Hex(digest)])
    ensures var signed := Join(Entries(signOrder, Stamped(params, ms)));
      var sent := Join(Entries(sendOrder, Stamped(params, ms)["signature" := Hex(digest)]));
      StripSignature(sent) == signed <==> KeysWithoutSignature(sendOrder) == signOrder
  {
    var stamped := Stamped(params, ms);
    var full := stamped["signature" := Hex(digest)];
    CleanSigned(params, ms, digest);
    StripOfJoin(sendOrder, full);
    CleanEntries(KeysWithoutSignature(sendOrder), full);
    CleanEntries(signOrder, stamped);
    SameStringSameOrder(KeysWithoutSignature(sendOrder), signOrder, full, stamped);
  }

  lemma {:induction false} KeysBeforeSignature(order: seq<string>)
    requires "signature" !in order
    ensures KeysWithoutSignature(order + ["signature"]) == order
  {
    if order != [] {
      assert (order + ["signature"])[1..] == order[1..] + ["signature"];
      KeysBeforeSignature(order[1..]);
    }
  }

  /** Adding the signature to the map may reorder it; the server then checks against another string. */
  lemma ReorderedRequestIsNotWhatWasSigned(params: map<string, string>, ms: nat, signOrder: seq<string>,
                                           newOrder: seq<string>, digest: seq<Byte>)
    requires CleanMap(params) && "signature" !in params
    requires Enumerates(signOrder, Stamped(params, ms)) && Enumerates(newOrder, Stamped(params, ms))
    requires newOrder != signOrder
    ensures var full := Stamped(params, ms)["signature" := Hex(digest)];
      && Enumerates(newOrder + ["signature"], full)
      && StripSignature(Join(Entries(newOrder + ["signature"], full))) != Join(Entries(signOrder, Stamped(params, ms)))
  {
    assert "timestamp"[0] != "signature"[0];
    assert "signature" !in Stamped(params, ms);
    KeysBeforeSignature(newOrder);
    SignedStringIsSent(params, ms, signOrder, newOrder + ["signature"], digest);
  }

  /** Such orders exist as soon as a request has one parameter of its own. */
  lemma OneParameterHasTwoOrders(value: string, ms: nat)
    ensures Enumerates(["a", "timestamp"], Stamped(map["a" := value], ms))
    ensures Enumerates(["timestamp", "a"], Stamped(map["a" := value], ms))
    ensures ["a", "timestamp"] != ["timestamp", "a"]
  {
    assert |"a"| != |"timestamp"|;
    assert ["a", "timestamp"][0] != ["timestamp", "a"][0];
  }
}
