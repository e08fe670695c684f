/**
 The normaliser of trickled ICE candidates, which runs on both sides of the work queue:
 what it accepts, what it makes of it, and when running it again changes nothing. Strings
 are sequences of bytes.
 */
module IceCandidate {
  import opened Options

  const MAX_CANDIDATE := 4096
  const MAX_UFRAG := 256
  const MANDATORY_FIELDS := 8
  const PREFIX: string := "a="
  const CANDIDATE: string := "candidate:"
  const END_OF_CANDIDATES: string := "end-of-candidates"

  /** A candidate, or the completion marker if `sdp` is empty. */
  datatype Signal = Signal(sdp: string, ufrag: string)

  // ---------------------------------------------------------------------------
  // Characters and tokens

  /** What TrimIceWhitespace removes. */
  predicate IsBlank(c: char) {
    c == ' ' || c == '\t' || c == '\r' || c == '\n'
  }

  /** What separates the fields of a stream: also vertical tab and form feed. */
  predicate IsSpace(c: char) {
    IsBlank(c) || c == '\U{000B}' || c == '\U{000C}'
  }

  function TrimStart(s: string): string {
    if s != [] && IsBlank(s[0]) then TrimStart(s[1..]) else s
  }

  function TrimEnd(s: string): string {
    if s != [] && IsBlank(s[|s| - 1]) then TrimEnd(s[..|s| - 1]) else s
  }

  function Trim(s: string): string {
    TrimEnd(TrimStart(s))
  }

  /** The length of the leading word. */
  function WordLength(s: string): (n: nat)
    ensures n <= |s| && (n > 0 <==> s != [] && !IsSpace(s[0]))
    ensures forall i :: 0 <= i < n ==> !IsSpace(s[i])
    ensures n < |s| ==> IsSpace(s[n])
  {
    if s == [] || IsSpace(s[0]) then 0 else 1 + WordLength(s[1..])
  }

  /** The fields `operator>>` reads one after the other. */
  function Tokens(s: string): seq<string>
    decreases |s|
  {
    if s == [] then []
    else if IsSpace(s[0]) then Tokens(s[1..])
    else [s[..WordLength(s)]] + Tokens(s[WordLength(s)..])
  }

  predicate Contains(s: string, c: char) {
    exists i :: 0 <= i < |s| && s[i] == c
  }

  predicate HasBlank(s: string) {
    exists i :: 0 <= i < |s| && IsBlank(s[i])
  }

  // ---------------------------------------------------------------------------
  // Parsing

  /** The extension pairs: a name without value, an overlong fragment or one that contradicts an
      earlier one is refused. */
  function Pairs(tokens: seq<string>, ufrag: string): Option<string> {
    if tokens == [] then Some(ufrag)
    else if |tokens| == 1 then None
    else if tokens[0] == "ufrag" then
      if |tokens[1]| > MAX_UFRAG || (ufrag != "" && ufrag != tokens[1]) then None
      else Pairs(tokens[2..], tokens[1])
    else Pairs(tokens[2..], ufrag)
  }

  predicate Admissible(candidate: string, ufrag: string) {
    |candidate| <= MAX_CANDIDATE && |ufrag| <= MAX_UFRAG &&
    !Contains(candidate, '\0') && !Contains(ufrag, '\0') && !HasBlank(ufrag)
  }

  /** Without the attribute prefix. */
  function Strip(s: string): (r: string)
    ensures s == r || s == PREFIX + r
  {
    if |s| >= 2 && s[..2] == PREFIX then s[2..] else s
  }

  function Parse(candidate: string, ufrag: string): Option<Signal> {
    if !Admissible(candidate, ufrag) then None
    else
      var sdp := Trim(candidate);
      if sdp == "" || sdp == PREFIX + END_OF_CANDIDATES || sdp == END_OF_CANDIDATES then Some(Signal("", ufrag))
      else if Contains(sdp, '\r') || Contains(sdp, '\n') then None
      else
        var body := Strip(sdp);
        if |body| < |CANDIDATE| || body[..|CANDIDATE|] != CANDIDATE then None
        else
          var tokens := Tokens(body);
          if |tokens| < MANDATORY_FIELDS then None
          else
            match Pairs(tokens[MANDATORY_FIELDS..], ufrag)
            case None => None
            case Some(u) => Some(Signal(PREFIX + body, u))
  }

  // ---------------------------------------------------------------------------
  // Lemmas on trimming and tokens

  predicate Trimmed(s: string) {
    s != [] ==> !IsBlank(s[0]) && !IsBlank(s[|s| - 1])
  }

  lemma {:induction false} TrimStartTrims(s: string)
    ensures var t := TrimStart(s);
            (t != [] ==> !IsBlank(t[0])) && |t| <= |s| && t == s[|s| - |t|..] &&
            forall i :: 0 <= i < |s| - |t| ==> IsBlank(s[i])
  {
    if s != [] && IsBlank(s[0]) {
      TrimStartTrims(s[1..]);
    }
  }

  lemma {:induction false} TrimEndTrims(s: string)
    ensures var t := TrimEnd(s);
            (t != [] ==> !IsBlank(t[|t| - 1])) && |t| <= |s| && t == s[..|t|] &&
            forall i :: |t| <= i < |s| ==> IsBlank(s[i])
  {
    if s != [] && IsBlank(s[|s| - 1]) {
      TrimEndTrims(s[..|s| - 1]);
    }
  }

  /** Trimming leaves a stretch of the text without blanks at its ends, and blanks around. */
  lemma TrimTrims(s: string) returns (from: nat)
    ensures var t := Trim(s);
            Trimmed(t) && from + |t| <= |s| && t == s[from..from + |t|] &&
            (forall i :: 0 <= i < from ==> IsBlank(s[i])) &&
            (forall i :: from + |t| <= i < |s| ==> IsBlank(s[i]))
  {
    TrimStartTrims(s);
    TrimEndTrims(TrimStart(s));
    from := |s| - |TrimStart(s)|;
  }

  lemma TrimOfTrimmed(s: string)
    requires Trimmed(s)
    ensures Trim(s) == s
  {
  }

  lemma {:induction false} TokensAreWords(s: string)
    ensures forall i :: 0 <= i < |Tokens(s)| ==> IsWord(Tokens(s)[i], s)
    decreases |s|
  {
    if s != [] {
      var n := if IsSpace(s[0]) then 1 else WordLength(s);
      TokensAreWords(s[n..]);
      forall i | 0 <= i < |Tokens(s)|
        ensures IsWord(Tokens(s)[i], s)
      {
        if IsSpace(s[0]) {
          WordOfSuffix(Tokens(s)[i], s, n);
        } else if i > 0 {
          assert Tokens(s)[i] == Tokens(s[n..])[i - 1];
          WordOfSuffix(Tokens(s)[i], s, n);
        } else {
          assert s[0..n] == s[..n];
          assert IsWordAt(s[..n], s, 0);
        }
      }
    }
  }

  ghost predicate IsWordAt(w: string, s: string, at: nat) {
    at + |w| <= |s| && s[at..at + |w|] == w
  }

  /** A piece of `s` without space. */
  ghost predicate IsWord(w: string, s: string) {
    w != [] && (forall i :: 0 <= i < |w| ==> !IsSpace(w[i])) && exists at: nat :: IsWordAt(w, s, at)
  }

  lemma WordOfSuffix(w: string, s: string, n: nat)
    requires n <= |s| && IsWord(w, s[n..])
    ensures IsWord(w, s)
  {
    var at: nat :| IsWordAt(w, s[n..], at);
    assert s[n..][at..at + |w|] == s[n + at..n + at + |w|];
    assert IsWordAt(w, s, n + at);
  }

  // ---------------------------------------------------------------------------
  // What the extension pairs mean

  /** Every user fragment extension has this value. */
  predicate AllFragments(tokens: seq<string>, value: string) {
    forall i :: 0 <= i < |tokens| - 1 && i % 2 == 0 && tokens[i] == "ufrag" ==> tokens[i + 1] == value
  }

  predicate HasFragment(tokens: seq<string>) {
    exists i :: 0 <= i < |tokens| - 1 && i % 2 == 0 && tokens[i] == "ufrag"
  }

  lemma TailPairs(tokens: seq<string>, value: string)
    requires |tokens| >= 2
    ensures AllFragments(tokens, value) <==>
            AllFragments(tokens[2..], value) && (tokens[0] == "ufrag" ==> tokens[1] == value)
    ensures HasFragment(tokens) <==> HasFragment(tokens[2..]) || tokens[0] == "ufrag"
  {
    var tail := tokens[2..];
    if AllFragments(tail, value) && (tokens[0] == "ufrag" ==> tokens[1] == value) {
      forall i | 0 <= i < |tokens| - 1 && i % 2 == 0 && tokens[i] == "ufrag"
        ensures tokens[i + 1] == value
      {
        assert i == 0 || (tail[i - 2] == "ufrag" && tail[i - 1] == tokens[i + 1]);
      }
    }
    if AllFragments(tokens, value) {
      forall i | 0 <= i < |tail| - 1 && i % 2 == 0 && tail[i] == "ufrag"
        ensures tail[i + 1] == value
      {
        assert tokens[i + 2] == "ufrag" && (i + 2) % 2 == 0;
      }
    }
    if HasFragment(tail) {
      var i :| 0 <= i < |tail| - 1 && i % 2 == 0 && tail[i] == "ufrag";
      assert tokens[i + 2] == "ufrag" && (i + 2) % 2 == 0;
    }
    if HasFragment(tokens) && tokens[0] != "ufrag" {
      var i :| 0 <= i < |tokens| - 1 && i % 2 == 0 && tokens[i] == "ufrag";
      assert tail[i - 2] == "ufrag" && (i - 2) % 2 == 0;
    }
  }

  /** The pairs are accepted exactly if every name has a value and all user fragments agree with
      each other, with a given one, and with the length limit; the result is that fragment, or
      the given one. */
  lemma {:induction false} PairsMean(tokens: seq<string>, ufrag: string, value: string)
    requires forall i :: 0 <= i < |tokens| ==> tokens[i] != ""
    ensures Pairs(tokens, ufrag) == Some(value) <==>
            |tokens| % 2 == 0 && AllFragments(tokens, value) &&
            (if HasFragment(tokens) then |value| <= MAX_UFRAG && (ufrag == "" || ufrag == value) && value != ""
             else value == ufrag)
    decreases |tokens|
  {
    if |tokens| >= 2 {
      TailPairs(tokens, value);
      if tokens[0] == "ufrag" {
        PairsMean(tokens[2..], tokens[1], value);
      } else {
        PairsMean(tokens[2..], ufrag, value);
      }
      assert |tokens[2..]| % 2 == |tokens| % 2;
    }
  }

  // ---------------------------------------------------------------------------
  // Main results

  /** What an accepted candidate looks like after normalisation. */
  predicate Normal(sdp: string) {
    |sdp| >= 2 + |CANDIDATE| && sdp[..2 + |CANDIDATE|] == PREFIX + CANDIDATE && Trimmed(sdp) &&
    !Contains(sdp, '\r') && !Contains(sdp, '\n') && !Contains(sdp, '\0')
  }

  lemma BodyOf(candidate: string)
    requires !Contains(candidate, '\0')
    ensures var sdp := Trim(candidate);
            Trimmed(sdp) && !Contains(sdp, '\0') && |sdp| <= |candidate| &&
            (Strip(sdp) != [] ==> !IsBlank(Strip(sdp)[|Strip(sdp)| - 1])) && !Contains(Strip(sdp), '\0')
  {
    var from := TrimTrims(candidate);
    var sdp := Trim(candidate);
    forall i | 0 <= i < |sdp|
      ensures sdp[i] != '\0'
    {
      assert sdp[i] == candidate[from + i];
    }
  }

  lemma PrefixedIsNormal(sdp: string)
    requires Trimmed(sdp) && !Contains(sdp, '\r') && !Contains(sdp, '\n') && !Contains(sdp, '\0')
    requires var body := Strip(sdp); |body| >= |CANDIDATE| && body[..|CANDIDATE|] == CANDIDATE
    ensures Normal(PREFIX + Strip(sdp)) && Strip(PREFIX + Strip(sdp)) == Strip(sdp)
  {
    var body := Strip(sdp);
    var out := PREFIX + body;
    assert out[..2] == PREFIX && out[2..] == body;
    assert out[..2 + |CANDIDATE|] == PREFIX + body[..|CANDIDATE|];
    forall i | 0 <= i < |out|
      ensures out[i] != '\r' && out[i] != '\n' && out[i] != '\0'
    {
      if i >= 2 {
        assert out[i] == sdp[i - 2 + (|sdp| - |body|)];
      }
    }
  }

  /** A normal candidate is parsed as it stands. */
  lemma ParseOfNormal(sdp: string, ufrag: string)
    requires Normal(sdp) && Admissible(sdp, ufrag)
    ensures var tokens := Tokens(sdp[2..]);
            Parse(sdp, ufrag) ==
            if |tokens| < MANDATORY_FIELDS then None
            else match Pairs(tokens[MANDATORY_FIELDS..], ufrag)
                 case None => None
                 case Some(u) => Some(Signal(sdp, u))
  {
    TrimOfTrimmed(sdp);
    assert sdp[..2] == PREFIX by {
      assert sdp[..2] == sdp[..2 + |CANDIDATE|][..2];
    }
    assert sdp[2..][..|CANDIDATE|] == CANDIDATE by {
      assert sdp[2..][..|CANDIDATE|] == sdp[..2 + |CANDIDATE|][2..];
    }
    assert PREFIX + sdp[2..] == sdp;
    var marker := PREFIX + END_OF_CANDIDATES;
    assert sdp[2] == 'c' && marker[2] == 'e' && sdp[0] == 'a' && END_OF_CANDIDATES[0] == 'e';
  }

  lemma NoBlankInWord(w: string, s: string)
    requires IsWord(w, s) && !Contains(s, '\0')
    ensures !HasBlank(w) && !Contains(w, '\0')
  {
    var at: nat :| IsWordAt(w, s, at);
    forall i | 0 <= i < |w|
      ensures w[i] != '\0' && !IsBlank(w[i])
    {
      assert w[i] == s[at + i];
    }
  }

  /** The fragment of an accepted candidate is admissible again. */
  lemma FragmentAdmissible(body: string, ufrag: string, value: string)
    requires !Contains(body, '\0') && |ufrag| <= MAX_UFRAG && !Contains(ufrag, '\0') && !HasBlank(ufrag)
    requires |Tokens(body)| >= MANDATORY_FIELDS && Pairs(Tokens(body)[MANDATORY_FIELDS..], ufrag) == Some(value)
    ensures |value| <= MAX_UFRAG && !Contains(value, '\0') && !HasBlank(value)
    ensures Pairs(Tokens(body)[MANDATORY_FIELDS..], value) == Some(value)
  {
    TokensAreWords(body);
    var tokens := Tokens(body)[MANDATORY_FIELDS..];
    PairsMean(tokens, ufrag, value);
    PairsMean(tokens, value, value);
    if HasFragment(tokens) {
      var i :| 0 <= i < |tokens| - 1 && i % 2 == 0 && tokens[i] == "ufrag";
      assert tokens[i + 1] == value && tokens[i + 1] == Tokens(body)[MANDATORY_FIELDS + i + 1];
      NoBlankInWord(value, body);
    }
  }

  lemma ParseResult(candidate: string, ufrag: string, signal: Signal)
    requires Parse(candidate, ufrag) == Some(signal)
    ensures Admissible(candidate, ufrag)
    ensures signal.sdp == "" ==> signal.ufrag == ufrag
    ensures signal.sdp != "" ==>
              var body := Strip(Trim(candidate));
              signal.sdp == PREFIX + body && Normal(signal.sdp) && !Contains(body, '\0') &&
              |Tokens(body)| >= MANDATORY_FIELDS &&
              Pairs(Tokens(body)[MANDATORY_FIELDS..], ufrag) == Some(signal.ufrag)
  {
    hide Tokens, Pairs, Trim, Strip, Normal;
    BodyOf(candidate);
    if signal.sdp != "" {
      PrefixedIsNormal(Trim(candidate));
    }
  }

  /** What is accepted: a completion marker, or one normal candidate with at least eight fields
      and whole extension pairs, whose user fragments all are the one reported. */
  lemma AcceptedMeans(candidate: string, ufrag: string, signal: Signal)
    requires Parse(candidate, ufrag) == Some(signal)
    ensures ufrag != "" ==> signal.ufrag == ufrag
    ensures signal.sdp == "" ==> signal.ufrag == ufrag
    ensures signal.sdp != "" ==>
              Normal(signal.sdp) && signal.sdp == PREFIX + Strip(Trim(candidate)) &&
              var tokens := Tokens(signal.sdp[2..]);
              |tokens| >= MANDATORY_FIELDS && |tokens| % 2 == 0 &&
              AllFragments(tokens[MANDATORY_FIELDS..], signal.ufrag) &&
              (!HasFragment(tokens[MANDATORY_FIELDS..]) ==> signal.ufrag == ufrag)
    ensures |signal.ufrag| <= MAX_UFRAG && !Contains(signal.ufrag, '\0') && !HasBlank(signal.ufrag)
  {
    hide Tokens, Pairs, Trim, Strip, Normal;
    ParseResult(candidate, ufrag, signal);
    if signal.sdp != "" {
      var body := Strip(Trim(candidate));
      assert signal.sdp[2..] == body;
      FragmentAdmissible(body, ufrag, signal.ufrag);
      TokensAreWords(body);
      var tokens := Tokens(body);
      PairsMean(tokens[MANDATORY_FIELDS..], ufrag, signal.ufrag);
      assert |tokens| == MANDATORY_FIELDS + |tokens[MANDATORY_FIELDS..]|;
    }
  }

  /** Lengths within the limits, no NUL, and no blank in the fragment. */
  predicate InputOk(candidate: string, ufrag: string) {
    |candidate| <= 4096 && |ufrag| <= 256 && '\0' !in candidate && '\0' !in ufrag &&
    ' ' !in ufrag && '\t' !in ufrag && '\r' !in ufrag && '\n' !in ufrag
  }

  /** One line that starts with "candidate:", has at least eight fields, and behind them whole
      pairs whose user fragments are all `value`. */
  predicate CandidateOk(body: string, ufrag: string, value: string) {
    '\r' !in body && '\n' !in body && |body| >= 10 && body[..10] == "candidate:" &&
    |Tokens(body)| >= 8 && |Tokens(body)| % 2 == 0 && AllFragments(Tokens(body)[8..], value) &&
    (if HasFragment(Tokens(body)[8..]) then |value| <= 256 && value != "" && (ufrag == "" || ufrag == value)
     else value == ufrag)
  }

  lemma StripKeeps(s: string, c: char)
    requires c != 'a' && c != '='
    ensures c in Strip(s) <==> c in s
    ensures Contains(s, c) <==> c in s
  {
    assert s == Strip(s) || s == PREFIX + Strip(s);
  }

  /** Exactly what is accepted, and as what: blank text and the two completion markers with the
      given fragment, and a candidate line, with or without "a=", with the fragment it names. */
  lemma ParseIff(candidate: string, ufrag: string, signal: Signal)
    ensures Parse(candidate, ufrag) == Some(signal) <==>
            InputOk(candidate, ufrag) &&
            var sdp := Trim(candidate);
            if sdp in {"", "end-of-candidates", "a=end-of-candidates"} then signal == Signal("", ufrag)
            else signal.sdp == "a=" + Strip(sdp) && CandidateOk(Strip(sdp), ufrag, signal.ufrag)
  {
    hide Tokens, Pairs, Trim, Strip, AllFragments, HasFragment;
    var sdp := Trim(candidate);
    var body := Strip(sdp);
    assert PREFIX + END_OF_CANDIDATES == "a=end-of-candidates";
    StripKeeps(sdp, '\r');
    StripKeeps(sdp, '\n');
    TokensAreWords(body);
    assert Admissible(candidate, ufrag) <==> InputOk(candidate, ufrag);
    if |Tokens(body)| >= 8 {
      var tokens := Tokens(body)[8..];
      assert |Tokens(body)| == 8 + |tokens|;
      PairsMean(tokens, ufrag, signal.ufrag);
    }
  }

  /** Parsing the result again gives the same result exactly if it still fits the length limit,
      that is, if the candidate text without blanks around it and without "a=" has at most 4094
      characters. */
  lemma ParseIdempotentIff(candidate: string, ufrag: string, signal: Signal)
    requires Parse(candidate, ufrag) == Some(signal)
    ensures Parse(signal.sdp, signal.ufrag) == Some(signal) <==>
            signal.sdp == "" || |Strip(Trim(candidate))| <= MAX_CANDIDATE - 2
  {
    AcceptedMeans(candidate, ufrag, signal);
    if signal.sdp == "" {
      assert Trim("") == "";
    } else if |signal.sdp| <= MAX_CANDIDATE {
      ParseOfNormal(signal.sdp, signal.ufrag);
      BodyOf(candidate);
      assert signal.sdp[2..] == Strip(Trim(candidate));
      FragmentAdmissible(Strip(Trim(candidate)), ufrag, signal.ufrag);
    }
  }

  // ---------------------------------------------------------------------------
  // A candidate at the limit

  function Xs(n: nat): (s: string)
    ensures |s| == n && forall i :: 0 <= i < n ==> s[i] == 'x'
  {
    seq(n, _ => 'x')
  }

  lemma WordThenRest(w: string, rest: string)
    requires w != [] && (forall i :: 0 <= i < |w| ==> !IsSpace(w[i])) && (rest == [] || IsSpace(rest[0]))
    ensures Tokens(w + rest) == [w] + Tokens(rest)
  {
    WordLengthIs(w, rest);
    assert (w + rest)[..|w|] == w && (w + rest)[|w|..] == rest;
  }

  lemma {:induction false} WordLengthIs(w: string, rest: string)
    requires (forall i :: 0 <= i < |w| ==> !IsSpace(w[i])) && (rest == [] || IsSpace(rest[0]))
    ensures WordLength(w + rest) == |w|
  {
    if w == [] {
      assert w + rest == rest;
    } else {
      assert (w + rest)[1..] == w[1..] + rest;
      WordLengthIs(w[1..], rest);
    }
  }

  lemma SpaceThenRest(rest: string)
    ensures Tokens(" " + rest) == Tokens(rest)
  {
    assert (" " + rest)[1..] == rest;
  }

  function Field(w: string, rest: string): string {
    w + (" " + rest)
  }

  predicate Plain(s: string) {
    forall i :: 0 <= i < |s| ==> s[i] != '\0' && s[i] != '\r' && s[i] != '\n'
  }

  lemma FieldThenRest(w: string, rest: string)
    requires w != [] && (forall i :: 0 <= i < |w| ==> !IsSpace(w[i])) && Plain(w) && Plain(rest)
    ensures Tokens(Field(w, rest)) == [w] + Tokens(rest)
    ensures |Field(w, rest)| == |w| + 1 + |rest| && Plain(Field(w, rest))
    ensures rest != [] ==> Field(w, rest)[|Field(w, rest)| - 1] == rest[|rest| - 1]
  {
    WordThenRest(w, " " + rest);
    SpaceThenRest(rest);
  }

  /** The six short fields in front of the last. */
  function ShortFields(last: string): string {
    Field("1", Field("udp", Field("1", Field("h", Field("9", Field("typ", last))))))
  }

  lemma ShortFieldsTokens(last: string)
    requires Plain(last) && last != []
    ensures Tokens(ShortFields(last)) == ["1", "udp", "1", "h", "9", "typ"] + Tokens(last)
    ensures |ShortFields(last)| == 16 + |last| && Plain(ShortFields(last))
    ensures ShortFields(last)[|ShortFields(last)| - 1] == last[|last| - 1]
  {
    hide Tokens, Field, Plain;
    PlainWords();
    var a6 := Field("typ", last);
    FieldThenRest("typ", last);
    var a5 := Field("9", a6);
    FieldThenRest("9", a6);
    var a4 := Field("h", a5);
    FieldThenRest("h", a5);
    var a3 := Field("1", a4);
    FieldThenRest("1", a4);
    var a2 := Field("udp", a3);
    FieldThenRest("udp", a3);
    FieldThenRest("1", a2);
  }

  lemma PlainWords()
    ensures Plain("typ") && Plain("9") && Plain("h") && Plain("1") && Plain("udp") && Plain("candidate:1")
  {
  }

  /** Eight fields, the last of `n` letters. */
  function LongCandidate(n: nat): string {
    Field("candidate:1", ShortFields(Xs(n)))
  }

  lemma LongCandidateShape(n: nat)
    requires n > 0
    ensures var c := LongCandidate(n);
            |c| == 28 + n && |Tokens(c)| == MANDATORY_FIELDS && Plain(c) && Trimmed(c) &&
            c[..|CANDIDATE|] == CANDIDATE
  {
    hide Tokens;
    var xs := Xs(n);
    ShortFieldsTokens(xs);
    PlainWords();
    FieldThenRest("candidate:1", ShortFields(xs));
    WordThenRest(xs, []);
    NoTokens();
    assert xs + [] == xs;
    assert LongCandidate(n)[..10] == "candidate:1"[..10];
  }

  lemma NoTokens()
    ensures Tokens([]) == []
  {
  }

  /** A candidate of 4095 characters is accepted, and what becomes of it is not. */
  lemma LongCandidateNotIdempotent()
    ensures var c := LongCandidate(MAX_CANDIDATE - 29);
            |c| == MAX_CANDIDATE - 1 && Parse(c, "") == Some(Signal(PREFIX + c, "")) && Parse(PREFIX + c, "") == None
  {
    hide Tokens;
    var c := LongCandidate(MAX_CANDIDATE - 29);
    LongCandidateShape(MAX_CANDIDATE - 29);
    hide LongCandidate;
    TrimOfTrimmed(c);
    assert c[0] == c[..|CANDIDATE|][0] && c[1] == c[..|CANDIDATE|][1];
    assert Strip(c) == c;
    assert Tokens(c)[MANDATORY_FIELDS..] == [];
  }

  // ---------------------------------------------------------------------------
  // The parser as it reads its stream

  /** `stream >> token`: skip space, take the word; the empty token is a failed read. */
  method ReadToken(s: string, at: nat) returns (token: string, next: nat)
    requires at <= |s|
    ensures at <= next <= |s|
    ensures if Tokens(s[at..]) == [] then token == "" && next == |s|
            else token == Tokens(s[at..])[0] && token != "" && next > at && Tokens(s[next..]) == Tokens(s[at..])[1..]
  {
    next := at;
    while next < |s| && IsSpace(s[next])
      invariant at <= next <= |s| && Tokens(s[next..]) == Tokens(s[at..])
    {
      assert s[next..][1..] == s[next + 1..];
      next := next + 1;
    }
    var start := next;
    while next < |s| && !IsSpace(s[next])
      invariant start <= next <= |s| && forall i :: start <= i < next ==> !IsSpace(s[i])
    {
      next := next + 1;
    }
    token := s[start..next];
    if token != "" {
      assert s[start..] == token + s[next..];
      WordThenRest(token, s[next..]);
    }
  }

  method ParseIceCandidateSignal(candidate: string, ufrag: string) returns (signal: Option<Signal>)
    ensures signal == Parse(candidate, ufrag)
  {
    hide Tokens, Pairs, Trim, Strip;
    if !Admissible(candidate, ufrag) {
      return None;
    }
    var sdp := Trim(candidate);
    if sdp == "" || sdp == PREFIX + END_OF_CANDIDATES || sdp == END_OF_CANDIDATES {
      return Some(Signal("", ufrag));
    }
    if Contains(sdp, '\r') || Contains(sdp, '\n') {
      return None;
    }
    var body := Strip(sdp);
    if |body| < |CANDIDATE| || body[..|CANDIDATE|] != CANDIDATE {
      return None;
    }
    var enough, at := SkipFields(body);
    if !enough {
      return None;
    }
    var found := ReadPairs(body, at, ufrag);
    signal := if found.None? then None else Some(Signal(PREFIX + body, found.value));
  }

  /** The eight mandatory fields. */
  method SkipFields(s: string) returns (enough: bool, at: nat)
    ensures at <= |s| && enough == (|Tokens(s)| >= MANDATORY_FIELDS)
    ensures enough ==> Tokens(s[at..]) == Tokens(s)[MANDATORY_FIELDS..]
  {
    hide Tokens;
    at := 0;
    var i := 0;
    assert s[0..] == s;
    while i < MANDATORY_FIELDS
      invariant 0 <= i <= MANDATORY_FIELDS && at <= |s| && i <= |Tokens(s)| && Tokens(s[at..]) == Tokens(s)[i..]
    {
      var token;
      token, at := ReadToken(s, at);
      if token == "" {
        return false, at;
      }
      i := i + 1;
    }
    enough := true;
  }

  method ReadPairs(s: string, start: nat, ufrag: string) returns (found: Option<string>)
    requires start <= |s|
    ensures found == Pairs(Tokens(s[start..]), ufrag)
  {
    hide Tokens;
    var at, current := start, ufrag;
    while true
      invariant at <= |s| && Pairs(Tokens(s[at..]), current) == Pairs(Tokens(s[start..]), ufrag)
      decreases |s| - at
    {
      ghost var tokens := Tokens(s[at..]);
      var token, mid := ReadToken(s, at);
      if token == "" {
        return Some(current);
      }
      var value, next := ReadToken(s, mid);
      if value == "" {
        return None;
      }
      assert tokens[0] == token && tokens[1] == value && tokens[2..] == Tokens(s[next..]);
      if token == "ufrag" {
        if |value| > MAX_UFRAG || (current != "" && current != value) {
          return None;
        }
        current := value;
      }
      at := next;
    }
  }
}
