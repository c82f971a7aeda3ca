/** Field extraction from the words recognised on one receipt image
    (backend/modules/ocr_engine.py). The OCR model, the sentence-embedding
    similarity, the date regular expression's search and the fuzzy date
    parser are parameters: only what the pipeline does with their results
    is modelled. */
module OcrEngine {
  import opened Common
  import opened Frames

  // ---------------------------------------------------------------------
  // Amount: re.findall(r"[-+]?\d*\.\d+|\d+", token), then the largest value
  // ---------------------------------------------------------------------

  /** Number of leading ASCII digits. */
  function DigitRun(s: string): (n: nat)
    ensures n <= |s|
    ensures forall i :: 0 <= i < n ==> IsDigit(s[i])
    ensures n < |s| ==> !IsDigit(s[n])
  {
    if s != [] && IsDigit(s[0]) then 1 + DigitRun(s[1..]) else 0
  }

  /** Length of the match of [-+]?\d*\.\d+|\d+ that starts at s[0], 0 when
      there is none. The decimal alternative is tried first; a sign can only
      belong to it, so "-5" has no match at its '-'. */
  function MatchLength(s: string): (n: nat)
    ensures n <= |s|
  {
    var start := if s != [] && (s[0] == '+' || s[0] == '-') then 1 else 0;
    var dot := start + DigitRun(s[start..]);
    if dot < |s| && s[dot] == '.' && DigitRun(s[dot + 1..]) > 0 then dot + 1 + DigitRun(s[dot + 1..])
    else if start == 0 && dot > 0 then dot
    else 0
  }

  /** re.findall of the amount pattern: the matches from left to right,
      each search resuming after the previous match. */
  function NumericMatches(s: string): seq<string>
    decreases |s|
  {
    if s == [] then []
    else
      var n := MatchLength(s);
      if n == 0 then NumericMatches(s[1..]) else [s[..n]] + NumericMatches(s[n..])
  }

  function Pow10(n: nat): (r: nat)
    ensures r > 0
  {
    if n == 0 then 1 else 10 * Pow10(n - 1)
  }

  /** The value of the digits of s read as a fraction 0.ddd. */
  function Fraction(s: string): real
  {
    var n := DigitRun(s);
    (ParseNat(s[..n]) as real) / (Pow10(n) as real)
  }

  /** float(m) for a match m of the amount pattern, as an exact decimal. */
  function DecimalValue(m: string): real
  {
    var body := if m != [] && (m[0] == '-' || m[0] == '+') then m[1..] else m;
    var d := DigitRun(body);
    var magnitude := ParseNat(body[..d]) as real + (if d < |body| then Fraction(body[d + 1..]) else 0.0);
    if m != [] && m[0] == '-' then -magnitude else magnitude
  }

  /** The numbers found in one token. */
  function TokenNumbers(token: string): (xs: seq<real>)
    ensures |xs| == |NumericMatches(token)|
  {
    var ms := NumericMatches(token);
    seq(|ms|, i requires 0 <= i < |ms| => DecimalValue(ms[i]))
  }

  /** The numbers found in all tokens, token by token. */
  function AllNumbers(tokens: seq<string>): seq<real>
  {
    if tokens == [] then [] else AllNumbers(tokens[..|tokens| - 1]) + TokenNumbers(tokens[|tokens| - 1])
  }

  /** max(values, default=None) */
  function MaxOf(xs: seq<real>): (m: Option<real>)
    ensures m.None? <==> xs == []
    ensures m.Some? ==> m.value in xs && forall x :: x in xs ==> x <= m.value
  {
    if xs == [] then None
    else
      assert forall x :: x in xs ==> x == xs[0] || x in xs[1..];
      match MaxOf(xs[1..])
      case None => Some(xs[0])
      case Some(r) => Some(if xs[0] >= r then xs[0] else r)
  }

  /** The amount read from the lower-half words. */
  function AmountOf(tokens: seq<string>): Option<real>
  {
    MaxOf(AllNumbers(tokens))
  }

  /** extract_amount: collect the numbers of every token, then take the largest. */
  method ExtractAmount(tokens: seq<string>) returns (amount: Option<real>)
    ensures amount == AmountOf(tokens)
  {
    var all: seq<real> := [];
    for i := 0 to |tokens|
      invariant all == AllNumbers(tokens[..i])
    {
      assert tokens[..i + 1][..i] == tokens[..i];
      all := all + TokenNumbers(tokens[i]);
    }
    assert tokens[..|tokens|] == tokens;
    amount := MaxOf(all);
  }

  lemma MatchHasDigit(s: string)
    requires MatchLength(s) > 0
    ensures HasDigit(s)
  {
    var start := if s != [] && (s[0] == '+' || s[0] == '-') then 1 else 0;
    var dot := start + DigitRun(s[start..]);
    if dot < |s| && s[dot] == '.' && DigitRun(s[dot + 1..]) > 0 {
      assert IsDigit(s[dot + 1..][0]);
      assert IsDigit(s[dot + 1]);
    } else {
      assert IsDigit(s[start..][0]);
      assert IsDigit(s[0]);
    }
  }

  lemma DigitStartsMatch(s: string)
    requires s != [] && IsDigit(s[0])
    ensures MatchLength(s) > 0
  {
    assert DigitRun(s[0..]) > 0;
  }

  /** A token yields a number exactly when it holds a digit. */
  lemma {:induction false} MatchesIffDigit(s: string)
    ensures NumericMatches(s) == [] <==> !HasDigit(s)
    decreases |s|
  {
    if s != [] {
      var n := MatchLength(s);
      if n == 0 {
        MatchesIffDigit(s[1..]);
        if IsDigit(s[0]) {
          DigitStartsMatch(s);
        }
        if HasDigit(s) {
          var i :| 0 <= i < |s| && IsDigit(s[i]);
          if i == 0 {
            DigitStartsMatch(s);
          }
          assert IsDigit(s[1..][i - 1]);
        }
        if HasDigit(s[1..]) {
          var i :| 0 <= i < |s[1..]| && IsDigit(s[1..][i]);
          assert IsDigit(s[i + 1]);
        }
      } else {
        MatchHasDigit(s);
      }
    }
  }

  lemma {:induction false} AllNumbersIffDigit(tokens: seq<string>)
    ensures AllNumbers(tokens) == [] <==> forall t :: t in tokens ==> !HasDigit(t)
  {
    if tokens != [] {
      var init, last := tokens[..|tokens| - 1], tokens[|tokens| - 1];
      AllNumbersIffDigit(init);
      MatchesIffDigit(last);
      assert tokens == init + [last];
    }
  }

  /** extract_amount returns the largest number in the words, and None
      exactly when no word holds a digit. */
  lemma AmountIsLargestNumber(tokens: seq<string>)
    ensures AmountOf(tokens).None? <==> forall t :: t in tokens ==> !HasDigit(t)
    ensures AmountOf(tokens).Some? ==>
      AmountOf(tokens).value in AllNumbers(tokens) &&
      forall x :: x in AllNumbers(tokens) ==> x <= AmountOf(tokens).value
  {
    AllNumbersIffDigit(tokens);
  }

  /** A match that starts at a sign goes on to a decimal point. */
  lemma SignedMatchHasPoint(s: string)
    requires MatchLength(s) > 0 && (s[0] == '+' || s[0] == '-')
    ensures exists k :: 0 < k < MatchLength(s) && s[k] == '.'
  {
    var dot := 1 + DigitRun(s[1..]);
    assert s[dot] == '.';
  }

  /** A sign is kept only on a number with a decimal point: every match
      that starts with '+' or '-' holds a '.'. */
  lemma {:induction false} SignNeedsDecimalPoint(s: string)
    ensures forall m :: m in NumericMatches(s) && |m| > 0 && (m[0] == '+' || m[0] == '-') ==>
      exists k :: 0 < k < |m| && m[k] == '.'
    decreases |s|
  {
    if s != [] {
      var n := MatchLength(s);
      if n == 0 {
        SignNeedsDecimalPoint(s[1..]);
      } else {
        SignNeedsDecimalPoint(s[n..]);
        if s[0] == '+' || s[0] == '-' {
          SignedMatchHasPoint(s);
          var k :| 0 < k < n && s[k] == '.';
          assert s[..n][k] == '.';
        }
      }
    }
  }

  /** Two instances of the sign rule: "-5" yields the match "5", while
      "-5.5" keeps its sign. */
  lemma SignExamples()
    ensures NumericMatches("-5") == ["5"]
    ensures NumericMatches("-5.5") == ["-5.5"]
    ensures DecimalValue("5") == 5.0 && DecimalValue("-5.5") == -5.5
  {
    assert DigitRun("") == 0;
    assert "5"[1..] == "";
    assert DigitRun("5") == 1;
    assert ".5"[0] == '.';
    assert DigitRun(".5") == 0;
    assert "5.5"[1..] == ".5";
    assert DigitRun("5.5") == 1;
    assert "-5"[1..] == "5";
    assert MatchLength("-5") == 0;
    assert MatchLength("5") == 1;
    assert "5"[..1] == "5";
    assert NumericMatches("") == [];
    assert NumericMatches("5") == ["5"];
    assert "-5.5"[1..] == "5.5";
    assert "-5.5"[3..] == "5";
    assert MatchLength("-5.5") == 4;
    assert "-5.5"[..4] == "-5.5";
    assert "-5.5"[4..] == "";
    assert "5"[..1] == "5";
    assert Fraction("5") == 0.5;
  }

  // ---------------------------------------------------------------------
  // Employee code: re.match(r'(?i)(TGLP|TGZM|GZM|GLP|TGM|TGP)\w+', token)
  // ---------------------------------------------------------------------

  const CodePrefixes: seq<string> := ["TGLP", "TGZM", "GZM", "GLP", "TGM", "TGP"]

  /** Number of leading \w characters. */
  function WordRun(s: string): (n: nat)
    ensures n <= |s|
    ensures forall i :: 0 <= i < n ==> IsWordChar(s[i])
    ensures n < |s| ==> !IsWordChar(s[n])
  {
    if s != [] && IsWordChar(s[0]) then 1 + WordRun(s[1..]) else 0
  }

  predicate StartsWithIgnoringCase(s: string, prefix: string)
  {
    |prefix| <= |s| && Lower(s[..|prefix|]) == Lower(prefix)
  }

  /** The text the code pattern matches at the start of a token. Every
      prefix is made of word characters, so whichever alternative matches,
      \w+ extends the match to the end of the leading word run; it matches
      when that run is longer than the prefix. */
  function CodeMatch(token: string): (r: Option<string>)
    ensures r.Some? ==> |r.value| > 3 && StartsWith(token, r.value)
    ensures r.Some? ==> forall i :: 0 <= i < |r.value| ==> IsWordChar(r.value[i])
    ensures r.Some? ==> |r.value| == |token| || !IsWordChar(token[|r.value|])
    ensures r.Some? <==> exists p :: p in CodePrefixes && StartsWithIgnoringCase(token, p) && WordRun(token) > |p|
  {
    var n := WordRun(token);
    if exists p :: p in CodePrefixes && StartsWithIgnoringCase(token, p) && n > |p| then Some(token[..n]) else None
  }

  /** The match of the first token that matches, or "". */
  function FirstCode(tokens: seq<string>): string
  {
    if tokens == [] then ""
    else match CodeMatch(tokens[0])
      case Some(c) => c
      case None => FirstCode(tokens[1..])
  }

  /** extract_emp_code: scan the words in order, return at the first match. */
  method ExtractEmpCode(tokens: seq<string>) returns (code: string)
    ensures code == FirstCode(tokens)
  {
    for i := 0 to |tokens|
      invariant FirstCode(tokens[i..]) == FirstCode(tokens)
    {
      var m := CodeMatch(tokens[i]);
      if m.Some? {
        return m.value;
      }
      assert tokens[i..][1..] == tokens[i + 1..];
    }
    return "";
  }

  /** The code comes from the first word that matches the pattern, and is
      empty exactly when no word does. */
  lemma {:induction false} FirstCodeIsFirstMatch(tokens: seq<string>)
    ensures FirstCode(tokens) == "" <==> forall i :: 0 <= i < |tokens| ==> CodeMatch(tokens[i]).None?
    ensures FirstCode(tokens) != "" ==>
      exists i :: 0 <= i < |tokens| && CodeMatch(tokens[i]) == Some(FirstCode(tokens)) &&
        forall j :: 0 <= j < i ==> CodeMatch(tokens[j]).None?
  {
    if tokens != [] && CodeMatch(tokens[0]).None? {
      var rest := tokens[1..];
      FirstCodeIsFirstMatch(rest);
      if FirstCode(rest) != "" {
        var i :| 0 <= i < |rest| && CodeMatch(rest[i]) == Some(FirstCode(rest)) &&
          forall j :: 0 <= j < i ==> CodeMatch(rest[j]).None?;
        assert CodeMatch(tokens[i + 1]) == Some(FirstCode(tokens));
        assert forall j :: 0 <= j < i + 1 ==> CodeMatch(tokens[j]).None? by {
          forall j | 0 <= j < i + 1 ensures CodeMatch(tokens[j]).None? {
            if j > 0 { assert tokens[j] == rest[j - 1]; }
          }
        }
      } else {
        forall i | 0 <= i < |tokens| ensures CodeMatch(tokens[i]).None? {
          if i > 0 { assert tokens[i] == rest[i - 1]; }
        }
      }
    }
  }

  // ---------------------------------------------------------------------
  // Date
  // ---------------------------------------------------------------------

  /** The OCR confusions fixed in a date candidate before it is parsed. */
  function FixMonthMisreads(candidate: string): string
  {
    ReplaceAll(ReplaceAll(ReplaceAll(candidate, "0ct", "Oct"), "0ec", "Dec"), "0ov", "Nov")
  }

  /** strftime('%d'): the day of the month on two digits. */
  function TwoDigits(n: nat): string
  {
    if n < 10 then "0" + NatToString(n) else NatToString(n)
  }

  /** strftime('%d-%b-%Y') */
  function FormatDate(d: Date): string
  {
    TwoDigits(d.day) + "-" + MonthAbbreviation(d.month) + "-" + NatToString(d.year)
  }

  /** What dateutil's fuzzy parser does with one candidate: a date, a
      ValueError (which extract_date catches) or any other exception
      (which escapes it). */
  datatype ParseOutcome = Parsed(date: Date) | Rejected | Raised

  /** What extract_date ends with: a formatted date, None, or an exception
      that leaves the candidate loop. */
  datatype DateSearch = Found(text: string) | NotFound | Escaped
  {
    /** The value written to the record when nothing escaped. */
    function Cell(): Option<string>
    {
      if Found? then Some(text) else None
    }
  }

  /** A candidate's outcome, after the fixes. */
  function OutcomeAt(candidates: seq<string>, i: nat, parse: string -> ParseOutcome): ParseOutcome
    requires i < |candidates|
  {
    parse(FixMonthMisreads(candidates[i]))
  }

  /** The first candidate that parses after the fixes, formatted. A
      ValueError moves on to the next candidate; any other exception stops
      the search. */
  function FirstParsed(candidates: seq<string>, parse: string -> ParseOutcome): DateSearch
  {
    if candidates == [] then NotFound
    else match OutcomeAt(candidates, 0, parse)
      case Parsed(d) => Found(FormatDate(d))
      case Rejected => FirstParsed(candidates[1..], parse)
      case Raised => Escaped
  }

  /** The date read from the words: candidates are searched in the words
      joined by single spaces. */
  function DateOf(tokens: seq<string>, findCandidates: string -> seq<string>,
                  parse: string -> ParseOutcome): DateSearch
  {
    FirstParsed(findCandidates(Join(tokens, " ")), parse)
  }

  /** extract_date: try the candidates in order and return the first that
      parses. A ValueError skips the candidate; any other exception is
      passed on to the caller (Escaped). */
  method ExtractDate(tokens: seq<string>, findCandidates: string -> seq<string>,
                     parse: string -> ParseOutcome) returns (date: DateSearch)
    ensures date == DateOf(tokens, findCandidates, parse)
  {
    var candidates := findCandidates(Join(tokens, " "));
    for i := 0 to |candidates|
      invariant FirstParsed(candidates[i..], parse) == FirstParsed(candidates, parse)
    {
      var fixed := FixMonthMisreads(candidates[i]);
      var parsed := parse(fixed);
      if parsed.Parsed? {
        return Found(FormatDate(parsed.date));
      } else if parsed.Raised? {
        return Escaped;
      }
      assert candidates[i..][1..] == candidates[i + 1..];
    }
    return NotFound;
  }

  /** The date is None exactly when every fixed candidate is rejected with a
      ValueError. It is found when a candidate parses after only rejected
      ones, and the search raises when a candidate raises anything else
      after only rejected ones. */
  lemma FirstParsedIsFirstSuccess(candidates: seq<string>, parse: string -> ParseOutcome)
    ensures FirstParsed(candidates, parse) == NotFound <==>
      forall i :: 0 <= i < |candidates| ==> OutcomeAt(candidates, i, parse).Rejected?
    ensures FirstParsed(candidates, parse).Found? ==>
      exists i :: 0 <= i < |candidates| && OutcomeAt(candidates, i, parse).Parsed? &&
        FirstParsed(candidates, parse) == Found(FormatDate(OutcomeAt(candidates, i, parse).date)) &&
        forall j :: 0 <= j < i ==> OutcomeAt(candidates, j, parse).Rejected?
    ensures FirstParsed(candidates, parse) == Escaped <==>
      exists i :: 0 <= i < |candidates| && OutcomeAt(candidates, i, parse).Raised? &&
        forall j :: 0 <= j < i ==> OutcomeAt(candidates, j, parse).Rejected?
  {
    FirstParsedNotFound(candidates, parse);
    FirstParsedFound(candidates, parse);
    FirstParsedEscaped(candidates, parse);
  }

  lemma {:induction false} FirstParsedNotFound(candidates: seq<string>, parse: string -> ParseOutcome)
    ensures FirstParsed(candidates, parse) == NotFound <==>
      forall i :: 0 <= i < |candidates| ==> OutcomeAt(candidates, i, parse).Rejected?
  {
    if candidates != [] {
      var rest := candidates[1..];
      FirstParsedNotFound(rest, parse);
      forall i | 0 < i < |candidates| ensures OutcomeAt(candidates, i, parse) == OutcomeAt(rest, i - 1, parse) {
        assert candidates[i] == rest[i - 1];
      }
      if OutcomeAt(candidates, 0, parse).Rejected? {
        assert FirstParsed(candidates, parse) == FirstParsed(rest, parse);
        if forall i :: 0 <= i < |rest| ==> OutcomeAt(rest, i, parse).Rejected? {
          forall i | 0 <= i < |candidates| ensures OutcomeAt(candidates, i, parse).Rejected? {
            if i > 0 { assert OutcomeAt(rest, i - 1, parse).Rejected?; }
          }
        } else {
          var i :| 0 <= i < |rest| && !OutcomeAt(rest, i, parse).Rejected?;
          assert !OutcomeAt(candidates, i + 1, parse).Rejected?;
        }
      }
    }
  }

  lemma {:induction false} FirstParsedFound(candidates: seq<string>, parse: string -> ParseOutcome)
    ensures FirstParsed(candidates, parse).Found? ==>
      exists i :: 0 <= i < |candidates| && OutcomeAt(candidates, i, parse).Parsed? &&
        FirstParsed(candidates, parse) == Found(FormatDate(OutcomeAt(candidates, i, parse).date)) &&
        forall j :: 0 <= j < i ==> OutcomeAt(candidates, j, parse).Rejected?
  {
    if candidates == [] || OutcomeAt(candidates, 0, parse).Raised? {
    } else if OutcomeAt(candidates, 0, parse).Parsed? {
      assert FirstParsed(candidates, parse) == Found(FormatDate(OutcomeAt(candidates, 0, parse).date));
    } else {
      var rest := candidates[1..];
      assert FirstParsed(candidates, parse) == FirstParsed(rest, parse);
      FirstParsedFound(rest, parse);
      if FirstParsed(rest, parse).Found? {
        var i :| 0 <= i < |rest| && OutcomeAt(rest, i, parse).Parsed? &&
          FirstParsed(rest, parse) == Found(FormatDate(OutcomeAt(rest, i, parse).date)) &&
          forall j :: 0 <= j < i ==> OutcomeAt(rest, j, parse).Rejected?;
        assert candidates[i + 1] == rest[i];
        assert OutcomeAt(candidates, i + 1, parse) == OutcomeAt(rest, i, parse);
        forall j | 0 < j < i + 1 ensures OutcomeAt(candidates, j, parse).Rejected? {
          assert candidates[j] == rest[j - 1];
          assert OutcomeAt(candidates, j, parse) == OutcomeAt(rest, j - 1, parse);
        }
      }
    }
  }

  lemma {:induction false} FirstParsedEscaped(candidates: seq<string>, parse: string -> ParseOutcome)
    ensures FirstParsed(candidates, parse) == Escaped <==>
      exists i :: 0 <= i < |candidates| && OutcomeAt(candidates, i, parse).Raised? &&
        forall j :: 0 <= j < i ==> OutcomeAt(candidates, j, parse).Rejected?
  {
    if candidates != [] && OutcomeAt(candidates, 0, parse).Rejected? {
      var rest := candidates[1..];
      FirstParsedEscaped(rest, parse);
      forall i | 0 < i < |candidates| ensures OutcomeAt(candidates, i, parse) == OutcomeAt(rest, i - 1, parse) {
        assert candidates[i] == rest[i - 1];
      }
      if FirstParsed(rest, parse) == Escaped {
        var i :| 0 <= i < |rest| && OutcomeAt(rest, i, parse).Raised? &&
          forall j :: 0 <= j < i ==> OutcomeAt(rest, j, parse).Rejected?;
        assert OutcomeAt(candidates, i + 1, parse).Raised?;
      } else {
        forall i | 0 <= i < |candidates| && OutcomeAt(candidates, i, parse).Raised?
          ensures exists j :: 0 <= j < i && !OutcomeAt(candidates, j, parse).Rejected?
        {
          var k :| 0 <= k < i - 1 && !OutcomeAt(rest, k, parse).Rejected?;
          assert !OutcomeAt(candidates, k + 1, parse).Rejected?;
        }
      }
    }
  }

  /** The fixes change no candidate's length, and leave a candidate holding
      none of the three misreads as it is. */
  lemma FixMonthMisreadsFacts(candidate: string)
    ensures |FixMonthMisreads(candidate)| == |candidate|
    ensures !Contains(candidate, "0ct") && !Contains(candidate, "0ec") && !Contains(candidate, "0ov") ==>
      FixMonthMisreads(candidate) == candidate
  {
    var a := ReplaceAll(candidate, "0ct", "Oct");
    var b := ReplaceAll(a, "0ec", "Dec");
    ReplaceAllSameLength(candidate, "0ct", "Oct");
    ReplaceAllSameLength(a, "0ec", "Dec");
    ReplaceAllSameLength(b, "0ov", "Nov");
    if !Contains(candidate, "0ct") && !Contains(candidate, "0ec") && !Contains(candidate, "0ov") {
      ReplaceAllAbsent(candidate, "0ct", "Oct");
      ReplaceAllAbsent(a, "0ec", "Dec");
      ReplaceAllAbsent(b, "0ov", "Nov");
    }
  }

  // ---------------------------------------------------------------------
  // Similarity search and the classification cascades
  // ---------------------------------------------------------------------

  /** The position of the first largest value: similarities.index(max(similarities)). */
  function FirstMaxIndex(xs: seq<real>): (k: nat)
    requires |xs| > 0
    ensures k < |xs|
    ensures forall j :: 0 <= j < |xs| ==> xs[j] <= xs[k]
    ensures forall j :: 0 <= j < k ==> xs[j] < xs[k]
  {
    if |xs| == 1 then 0
    else
      var k := FirstMaxIndex(xs[1..]);
      if xs[0] >= xs[1..][k] then 0 else k + 1
  }

  /** The similarity of each word to the comparison word. */
  function Scores(words: seq<string>, target: string, similarity: (string, string) -> real): (s: seq<real>)
    ensures |s| == |words|
    ensures forall i :: 0 <= i < |words| ==> s[i] == similarity(target, words[i])
  {
    seq(|words|, i requires 0 <= i < |words| => similarity(target, words[i]))
  }

  datatype Similar = Similar(word: string, score: real)

  /** find_similar_words: the word most similar to the target and its score;
      the first such word on a tie. With no words the search raises (None). */
  function FindSimilarWords(words: seq<string>, target: string, similarity: (string, string) -> real): (r: Option<Similar>)
    ensures r.None? <==> words == []
    ensures r.Some? ==> forall j :: 0 <= j < |words| ==> similarity(target, words[j]) <= r.value.score
    ensures r.Some? ==>
      exists k :: 0 <= k < |words| && r.value == Similar(words[k], similarity(target, words[k])) &&
                  (forall j :: 0 <= j < k ==> similarity(target, words[j]) < r.value.score)
  {
    if words == [] then None
    else
      var k := FirstMaxIndex(Scores(words, target, similarity));
      Some(Similar(words[k], Scores(words, target, similarity)[k]))
  }

  /** The best similarity of any word to the target. */
  function BestScore(words: seq<string>, target: string, similarity: (string, string) -> real): real
    requires words != []
  {
    FindSimilarWords(words, target, similarity).value.score
  }

  const SpecialPackedM := "Special Packed M"
  const SpecialVegThali := "Special Veg Thali"
  const SpecialNonVegThali := "Special Non Veg Thali"
  const GrazittiIntractive := "Grazitti Intractive"

  /** identify_meal_type: a cascade of strict thresholds over the best
      scores of the anchor words. */
  function IdentifyMealType(words: seq<string>, similarity: (string, string) -> real): (r: Option<string>)
    ensures r.None? <==> words == []
    ensures r.Some? ==> r.value in [SpecialPackedM, SpecialVegThali, SpecialNonVegThali, ""]
    ensures r.Some? && r.value != "" ==> BestScore(words, "Special", similarity) > 0.90
    ensures r.Some? && r.value in [SpecialVegThali, SpecialNonVegThali] ==> BestScore(words, "Thali", similarity) > 0.80
  {
    if words == [] then None
    else
      var special := BestScore(words, "Special", similarity);
      var packed := BestScore(words, "Packed", similarity);
      var m := BestScore(words, "M", similarity);
      if special > 0.90 && packed > 0.90 && m > 0.80 then Some(SpecialPackedM)
      else
        var veg := BestScore(words, "Veg", similarity);
        var thali := BestScore(words, "Thali", similarity);
        if special > 0.90 && veg > 0.90 && thali > 0.80 then Some(SpecialVegThali)
        else
          var nonVeg := BestScore(words, "Non veg", similarity);
          if special > 0.90 && nonVeg > 0.85 && thali > 0.80 then Some(SpecialNonVegThali)
          else Some("")
  }

  /** The meal-type cascade, condition by condition, in priority order. */
  lemma MealTypeCascade(words: seq<string>, similarity: (string, string) -> real)
    requires words != []
    ensures
      var special := BestScore(words, "Special", similarity);
      var thali := BestScore(words, "Thali", similarity);
      var packedM := special > 0.90 && BestScore(words, "Packed", similarity) > 0.90 && BestScore(words, "M", similarity) > 0.80;
      var vegThali := special > 0.90 && BestScore(words, "Veg", similarity) > 0.90 && thali > 0.80;
      var nonVegThali := special > 0.90 && BestScore(words, "Non veg", similarity) > 0.85 && thali > 0.80;
      && (IdentifyMealType(words, similarity) == Some(SpecialPackedM) <==> packedM)
      && (IdentifyMealType(words, similarity) == Some(SpecialVegThali) <==> !packedM && vegThali)
      && (IdentifyMealType(words, similarity) == Some(SpecialNonVegThali) <==> !packedM && !vegThali && nonVegThali)
      && (IdentifyMealType(words, similarity) == Some("") <==> !packedM && !vegThali && !nonVegThali)
  {
  }

  /** identify_company. Its third branch would return the two best words
      joined, but it requires a grazitti score above 0.90, which the first
      branch has already answered: only the company name or "" is returned. */
  function IdentifyCompany(words: seq<string>, similarity: (string, string) -> real): (r: Option<string>)
    ensures r.None? <==> words == []
    ensures r.Some? ==> r.value == GrazittiIntractive || r.value == ""
    ensures r == Some(GrazittiIntractive) <==>
      words != [] &&
      (BestScore(words, "grazitti", similarity) > 0.90 ||
       (BestScore(words, "intractive", similarity) > 0.95 && BestScore(words, "grazitti", similarity) > 0.80))
  {
    if words == [] then None
    else
      var grazitti := FindSimilarWords(words, "grazitti", similarity).value;
      var intractive := FindSimilarWords(words, "intractive", similarity).value;
      if grazitti.score > 0.90 then Some(GrazittiIntractive)
      else if intractive.score > 0.95 && grazitti.score > 0.80 then Some(GrazittiIntractive)
      else if intractive.score < 0.80 && grazitti.score > 0.90 then Some(grazitti.word + " " + intractive.word)
      else Some("")
  }

  // ---------------------------------------------------------------------
  // Images, the per-image record and the staging CSV
  // ---------------------------------------------------------------------

  datatype Pixel = Pixel(channels: seq<int>)

  /** A decoded image: its rows of pixels, top to bottom. */
  type Image = seq<seq<Pixel>>

  /** image[height // 2 : height, :] */
  function LowerHalf(image: Image): (half: Image)
    ensures |half| == (|image| + 1) / 2
    ensures forall i :: 0 <= i < |half| ==> half[i] == image[|image| / 2 + i]
  {
    image[|image| / 2..]
  }

  predicate HasWidth(image: Image, width: nat)
  {
    forall i :: 0 <= i < |image| ==> |image[i]| == width
  }

  /** The lower half keeps the full width, and together with the rows above
      the midpoint it is the whole image. */
  lemma LowerHalfKeepsWidth(image: Image, width: nat)
    requires HasWidth(image, width)
    ensures HasWidth(LowerHalf(image), width)
    ensures image[..|image| / 2] + LowerHalf(image) == image
  {
  }

  /** The external models one image goes through. */
  datatype Models = Models(
    decode: string -> Option<Image>,         // reading the file; None when it cannot be read
    ocr: Image -> Option<seq<string>>,       // the OCR predictor; None when it raises
    similarity: (string, string) -> real,    // cosine similarity of sentence embeddings
    dateCandidates: string -> seq<string>,   // re.findall of the date pattern
    parseDate: string -> ParseOutcome)       // dateutil's fuzzy parse

  /** One row of the staging CSV. */
  datatype Extraction = Extraction(date: Option<string>, code: string, amount: Option<real>,
                                   company: string, meal: string, imageName: string)

  /** What process_image returns for one image: None when the image cannot
      be read, OCR raises, the date parser raises anything but a ValueError,
      or the full text has no word (the similarity search then raises). */
  function ImageRecord(path: string, m: Models): Option<Extraction>
  {
    match m.decode(path)
    case None => None
    case Some(image) =>
      match m.ocr(image)
      case None => None
      case Some(full) =>
        match m.ocr(LowerHalf(image))
        case None => None
        case Some(half) =>
          var date := DateOf(full, m.dateCandidates, m.parseDate);
          if date.Escaped? || full == [] then None
          else Some(Extraction(date.Cell(), FirstCode(full), AmountOf(half),
                               IdentifyCompany(full, m.similarity).value, IdentifyMealType(full, m.similarity).value,
                               path))
  }

  /** process_image */
  method ProcessImage(path: string, m: Models) returns (record: Option<Extraction>)
    ensures record == ImageRecord(path, m)
  {
    var image := m.decode(path);
    if image.None? {
      return None;
    }
    var full := m.ocr(image.value);
    if full.None? {
      return None;
    }
    var half := m.ocr(LowerHalf(image.value));
    if half.None? {
      return None;
    }
    var date := ExtractDate(full.value, m.dateCandidates, m.parseDate);
    if date.Escaped? {
      return None;
    }
    var code := ExtractEmpCode(full.value);
    var amount := ExtractAmount(half.value);
    var company := IdentifyCompany(full.value, m.similarity);
    var meal := IdentifyMealType(full.value, m.similarity);
    if company.None? || meal.None? {
      return None;
    }
    record := Some(Extraction(date.Cell(), code, amount, company.value, meal.value, path));
  }

  /** An image yields no record exactly when it cannot be read, OCR raises
      on it or on its lower half, its full text has no word, or the date
      parser raises something other than a ValueError on a candidate
      reached before any candidate parses. */
  lemma ImageRecordNone(path: string, m: Models)
    ensures ImageRecord(path, m).None? <==>
      || m.decode(path).None?
      || m.ocr(m.decode(path).value).None?
      || m.ocr(LowerHalf(m.decode(path).value)).None?
      || m.ocr(m.decode(path).value).value == []
      || DateOf(m.ocr(m.decode(path).value).value, m.dateCandidates, m.parseDate).Escaped?
  {
  }

  /** A record names its own image, holds the date found (None when every
      candidate was rejected), and its meal and company come from the closed
      sets of labels. */
  lemma ImageRecordFields(path: string, m: Models)
    requires ImageRecord(path, m).Some?
    ensures ImageRecord(path, m).value.imageName == path
    ensures var full := m.ocr(m.decode(path).value).value;
      match DateOf(full, m.dateCandidates, m.parseDate)
      case Found(text) => ImageRecord(path, m).value.date == Some(text)
      case NotFound => ImageRecord(path, m).value.date.None?
      case Escaped => false
    ensures ImageRecord(path, m).value.meal in [SpecialPackedM, SpecialVegThali, SpecialNonVegThali, ""]
    ensures ImageRecord(path, m).value.company in [GrazittiIntractive, ""]
  {
  }

  /** The column order of the staging CSV: the keys of the record dictionary. */
  const StagingHeader: seq<string> := ["Date", "Code", "Amount", "Company", "Meal", "Image_name"]

  /** csv.DictWriter.writerow of one record; None is written as an empty cell. */
  function CsvRow(e: Extraction, showAmount: real -> string): (cells: seq<string>)
    ensures |cells| == |StagingHeader|
  {
    [if e.date.Some? then e.date.value else "", e.code,
     if e.amount.Some? then showAmount(e.amount.value) else "",
     e.company, e.meal, e.imageName]
  }

  /** The content of a staging file written from scratch with these records. */
  function StagingLines(records: seq<Extraction>, showAmount: real -> string): (lines: seq<seq<string>>)
    ensures records == [] ==> lines == []
    ensures records != [] ==> |lines| == |records| + 1 && lines[0] == StagingHeader
  {
    if records == [] then []
    else [StagingHeader] + seq(|records|, i requires 0 <= i < |records| => CsvRow(records[i], showAmount))
  }

  /** The staging CSV file of one run: whether it exists and its rows. */
  class StagingFile {
    var present: bool
    var lines: seq<seq<string>>

    constructor (present: bool, lines: seq<seq<string>>)
      ensures this.present == present && this.lines == lines
    {
      this.present := present;
      this.lines := lines;
    }

    /** os.remove */
    method Remove()
      modifies this
      ensures !present && lines == []
    {
      present := false;
      lines := [];
    }

    /** save_to_csv: append one row, writing the header first when the file
        did not exist before the call. */
    method SaveToCsv(e: Extraction, showAmount: real -> string)
      modifies this
      ensures present
      ensures lines == old(lines) + (if old(present) then [] else [StagingHeader]) + [CsvRow(e, showAmount)]
    {
      if !present {
        lines := lines + [StagingHeader];
      }
      lines := lines + [CsvRow(e, showAmount)];
      present := true;
    }
  }

  /** Saving one more record to a file written from scratch gives the file
      written from scratch with one more record: the header once, then one
      row per record. */
  lemma StagingLinesSnoc(records: seq<Extraction>, e: Extraction, showAmount: real -> string)
    ensures StagingLines(records + [e], showAmount) ==
      StagingLines(records, showAmount) + (if records == [] then [StagingHeader] else []) + [CsvRow(e, showAmount)]
  {
    var lhs := StagingLines(records + [e], showAmount);
    var rhs := StagingLines(records, showAmount) + (if records == [] then [StagingHeader] else []) + [CsvRow(e, showAmount)];
    assert |lhs| == |rhs|;
    forall i | 0 <= i < |lhs| ensures lhs[i] == rhs[i] {
      if i > 0 && i <= |records| {
        assert (records + [e])[i - 1] == records[i - 1];
      }
    }
  }
}
