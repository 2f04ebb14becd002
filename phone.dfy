/** Turning a contact's phone field into the chat id the chat library expects. */
module Phone {
  import opened Wrappers

  /** The `phone` field of a contact as it arrives in the request body: a JSON string,
      a JSON number (a numeric spreadsheet cell), or absent. */
  datatype PhoneValue = Text(text: string) | Num(n: int) | Missing

  /** The message of the TypeError thrown by `undefined.toString()`. */
  const MissingPhoneError: string := "Cannot read properties of undefined (reading 'toString')"

  /** The suffix that turns a number into a personal chat id. */
  const ChatSuffix: string := "@c.us"

  predicate IsDigit(c: char) {
    '0' <= c <= '9'
  }

  predicate AllDigits(s: string) {
    forall k :: 0 <= k < |s| ==> IsDigit(s[k])
  }

  function DigitChar(d: nat): (c: char)
    requires d < 10
    ensures IsDigit(c) && c as int - '0' as int == d
  {
    ('0' as int + d) as char
  }

  /** The decimal digits of `n`, most significant first, with no leading zero. */
  function Decimal(n: nat): (s: string)
    ensures |s| > 0 && AllDigits(s)
    ensures s[0] == '0' ==> s == "0"
  {
    if n < 10 then [DigitChar(n)] else Decimal(n / 10) + [DigitChar(n % 10)]
  }

  /** The value a string of decimal digits denotes. */
  function DecimalValue(s: string): nat
    requires AllDigits(s)
  {
    if s == [] then 0
    else 10 * DecimalValue(s[..|s| - 1]) + (s[|s| - 1] as int - '0' as int)
  }

  /** Reading back the digits that `Decimal` writes gives the number again. */
  lemma {:induction false} DecimalRoundTrip(n: nat)
    ensures DecimalValue(Decimal(n)) == n
  {
    var s := Decimal(n);
    if n >= 10 {
      DecimalRoundTrip(n / 10);
      assert s[..|s| - 1] == Decimal(n / 10);
    }
  }

  /** `contact.phone.toString()`: the text of a string, the decimal form of an integer
      (with a leading '-' when negative), and a TypeError when the field is absent. */
  function PhoneToString(p: PhoneValue): (r: Result<string>)
    ensures r.Throws? <==> p.Missing?
    ensures r.Throws? ==> r.message == MissingPhoneError
    ensures p.Text? ==> r == Ok(p.text)
    ensures p.Num? && p.n >= 0 ==> r.Ok? && |r.value| > 0 && AllDigits(r.value) && DecimalValue(r.value) == p.n
                                   && (r.value[0] == '0' ==> r.value == "0")
    ensures p.Num? && p.n < 0 ==> r.Ok? && |r.value| > 1 && r.value[0] == '-' && AllDigits(r.value[1..])
                                  && DecimalValue(r.value[1..]) == -p.n && r.value[1] != '0'
  {
    match p
    case Text(s) => Ok(s)
    case Num(n) =>
      DecimalRoundTrip(if n < 0 then -n else n);
      if n < 0 then Ok("-" + Decimal(-n)) else Ok(Decimal(n))
    case Missing => Throws(MissingPhoneError)
  }

  /** `s.replace(/[^\d]/g, '')`: keep the ASCII digits of `s`, drop every other character. */
  function Normalise(s: string): (r: string)
    ensures AllDigits(r)
    ensures |r| <= |s|
  {
    if s == [] then []
    else
      var rest := Normalise(s[1..]);
      if IsDigit(s[0]) then [s[0]] + rest else rest
  }

  /** Each digit occurs in the result as often as in the input; no other character does. */
  lemma {:induction false} NormaliseKeepsDigits(s: string, c: char)
    ensures multiset(Normalise(s))[c] == if IsDigit(c) then multiset(s)[c] else 0
  {
    if s != [] {
      NormaliseKeepsDigits(s[1..], c);
      assert s == [s[0]] + s[1..];
    }
  }

  /** Normalising a concatenation normalises each part: the digits keep their order. */
  lemma {:induction false} NormaliseAppend(a: string, b: string)
    ensures Normalise(a + b) == Normalise(a) + Normalise(b)
  {
    if a == [] {
      assert a + b == b;
    } else {
      assert (a + b)[1..] == a[1..] + b;
      NormaliseAppend(a[1..], b);
    }
  }

  /** A single character survives exactly when it is a digit. */
  lemma NormaliseChar(c: char)
    ensures Normalise([c]) == if IsDigit(c) then [c] else []
  {
  }

  /** The input is left unchanged exactly when it consists of digits only. */
  lemma {:induction false} NormaliseFixedIff(s: string)
    ensures Normalise(s) == s <==> AllDigits(s)
  {
    if s != [] {
      NormaliseFixedIff(s[1..]);
      if !IsDigit(s[0]) {
        assert |Normalise(s)| < |s| by { assert |Normalise(s[1..])| <= |s[1..]|; }
      }
    }
  }

  /** Normalising twice is normalising once. */
  lemma NormaliseIdempotent(s: string)
    ensures Normalise(Normalise(s)) == Normalise(s)
  {
  }

  /** The number of a numeric phone cell is its magnitude's digits: the sign is dropped. */
  lemma NormaliseNumber(n: int)
    ensures PhoneToString(Num(n)).Ok?
    ensures Normalise(PhoneToString(Num(n)).value) == Decimal(if n < 0 then -n else n)
  {
    if n < 0 {
      NormaliseAppend("-", Decimal(-n));
      NormaliseChar('-');
      NormaliseFixedIff(Decimal(-n));
    } else {
      NormaliseFixedIff(Decimal(n));
    }
  }

  /** `number + "@c.us"`. */
  function ChatId(number: string): (id: string)
    ensures |id| == |number| + |ChatSuffix|
    ensures id[..|number|] == number && id[|number|..] == ChatSuffix
  {
    number + ChatSuffix
  }

  /** The part of a chat id before its first '@'. */
  function NumberOf(id: string): (r: string)
    ensures |r| <= |id| && r == id[..|r|]
    ensures '@' !in r
    ensures |r| == |id| || id[|r|] == '@'
  {
    if id == [] || id[0] == '@' then []
    else [id[0]] + NumberOf(id[1..])
  }

  /** The number can be read back from the chat id built from a normalised phone value. */
  lemma {:induction false} NumberOfChatId(number: string)
    requires AllDigits(number)
    ensures NumberOf(ChatId(number)) == number
  {
    if number != [] {
      assert ChatId(number)[1..] == ChatId(number[1..]);
      NumberOfChatId(number[1..]);
    }
  }

  /** Distinct normalised numbers give distinct chat ids. */
  lemma ChatIdInjective(a: string, b: string)
    requires ChatId(a) == ChatId(b)
    ensures a == b
  {
  }
}
