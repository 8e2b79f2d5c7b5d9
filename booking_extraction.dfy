/**
  Booking extraction from a conversation history: the service, the customer's
  name and the appointment time, the three slots a booking needs. Each slot has a
  specification function; the method `ExtractBookingFromHistory` computes all
  three step by step, as the simulator does, and is proved to agree with them.
 */
module BookingExtraction {
  import opened Wrappers
  import opened Text
  import opened Calendar
  import opened AgentLogic

  /** The slots found in a history; the time slot is never empty. */
  datatype Booking = Booking(name: string, service: Option<Service>, time: Instant)

  predicate Complete(b: Booking)
  {
    b.name != "" && b.service.Some?
  }

  const Fillers: seq<string> :=
    ["um", "uh", "ah", "er", "hmm", "like", "you know", "well", "so", "yeah", "yes", "no"]

  /** Words whose presence in a turn rules it out as a name. */
  const NameStopWords: seq<string> :=
    ["book", "appointment", "physio", "massage", "consultation",
     "monday", "tuesday", "wednesday", "thursday", "friday", "am", "pm"]

  const Days: seq<string> := ["monday", "tuesday", "wednesday", "thursday", "friday"]

  /** The default appointment hour, 2 PM. */
  const DefaultHour: nat := 14

  // ---------------------------------------------------------------------------
  // Filler removal and white-space clean-up
  // ---------------------------------------------------------------------------

  /** The regular expression `\bw\b`, case-insensitive, matches at index `i`
      (`w` is lower case and begins and ends with a word character). */
  predicate WholeWordAt(s: string, w: string, i: int)
  {
    0 <= i && i + |w| <= |s| && Lower(s[i..i + |w|]) == w &&
    (i == 0 || !IsWordChar(s[i - 1])) &&
    (i + |w| == |s| || !IsWordChar(s[i + |w|]))
  }

  /** Where the next whole-word match at or after `i` starts, or `|s|` when there is none. */
  function NextMatch(s: string, w: string, i: nat): (j: nat)
    requires i <= |s|
    ensures i <= j <= |s|
    ensures j < |s| ==> WholeWordAt(s, w, j)
    decreases |s| - i
  {
    if i == |s| then |s| else if WholeWordAt(s, w, i) then i else NextMatch(s, w, i + 1)
  }

  /** No whole-word match starts before the next one. */
  lemma {:induction false} NextMatchIsFirst(s: string, w: string, i: nat)
    requires i <= |s|
    ensures forall t :: i <= t < NextMatch(s, w, i) ==> !WholeWordAt(s, w, t)
    decreases |s| - i
  {
    if i < |s| && !WholeWordAt(s, w, i) {
      NextMatchIsFirst(s, w, i + 1);
    }
  }

  /** A whole-word match with none before it, from `i` on, is the next match. */
  lemma NextMatchIsThatMatch(s: string, w: string, i: nat, j: nat)
    requires i <= j < |s| && WholeWordAt(s, w, j)
    requires forall t :: i <= t < j ==> !WholeWordAt(s, w, t)
    ensures NextMatch(s, w, i) == j
  {
    NextMatchIsFirst(s, w, i);
  }

  /** `s.replace(/\bw\b/gi, '')` on the part of `s` from index `i`: the text up to the next
      whole-word match is kept, the match is deleted, and the search resumes after it. */
  function RemoveWordFrom(s: string, w: string, i: nat): (r: string)
    requires |w| > 0 && i <= |s|
    ensures |r| <= |s| - i
    ensures (forall j :: i <= j < |s| ==> !WholeWordAt(s, w, j)) ==> r == s[i..]
    decreases |s| - i
  {
    var j := NextMatch(s, w, i);
    if j == |s| then s[i..] else s[i..j] + RemoveWordFrom(s, w, j + |w|)
  }

  function RemoveWholeWord(s: string, w: string): string
    requires |w| > 0
  {
    RemoveWordFrom(s, w, 0)
  }

  /** Every character before the next whole-word match is kept, in order and case; the
      match itself is deleted and the search resumes right after it. */
  lemma RemoveWordUpToNext(s: string, w: string, i: nat)
    requires |w| > 0 && i <= |s| && NextMatch(s, w, i) < |s|
    ensures RemoveWordFrom(s, w, i) ==
              s[i..NextMatch(s, w, i)] + RemoveWordFrom(s, w, NextMatch(s, w, i) + |w|)
  {
  }

  /** The `forEach` over the fillers (remove each in turn, trimming after each),
      then `replace(/\s+/g, ' ')` and a last `trim`. The text is part of the measure
      so that the scan is only unfolded on a known text. */
  function CleanFrom(s: string, fillers: seq<string>): string
    requires forall k :: 0 <= k < |fillers| ==> |fillers[k]| > 0
    decreases |fillers|, |s|
  {
    if fillers == [] then Trim(CollapseSpaces(s))
    else CleanFrom(Trim(RemoveWholeWord(s, fillers[0])), fillers[1..])
  }

  /** No white space but single spaces between non-blank characters. */
  predicate SingleSpaced(s: string)
  {
    (forall i :: 0 <= i < |s| && IsSpace(s[i]) ==> s[i] == ' ') &&
    (forall i :: 0 < i < |s| && s[i] == ' ' ==> s[i - 1] != ' ')
  }

  /** Single-spaced, and neither beginning nor ending with a space. */
  predicate Tidy(s: string)
  {
    SingleSpaced(s) && (s != [] ==> s[0] != ' ' && s[|s| - 1] != ' ')
  }

  /** `s.replace(/\s+/g, ' ')`: every run of white space becomes one space. */
  function CollapseSpaces(s: string): string
    decreases |s|
  {
    if s == [] then []
    else if IsSpace(s[0]) then [' '] + CollapseSpaces(TrimStart(s[1..]))
    else [s[0]] + CollapseSpaces(s[1..])
  }

  /** The collapsed text is single-spaced and keeps a leading non-space character. */
  lemma {:induction false} CollapseSpacesIsSingleSpaced(s: string)
    ensures SingleSpaced(CollapseSpaces(s))
    ensures s != [] && !IsSpace(s[0]) ==> CollapseSpaces(s) != [] && CollapseSpaces(s)[0] == s[0]
    decreases |s|
  {
    if s != [] {
      var rest := if IsSpace(s[0]) then TrimStart(s[1..]) else s[1..];
      CollapseSpacesIsSingleSpaced(rest);
      var r := CollapseSpaces(s);
      assert forall i :: 1 <= i < |r| ==> r[i] == CollapseSpaces(rest)[i - 1];
    }
  }

  lemma SingleSpacedSlice(s: string, i: nat, j: nat)
    requires SingleSpaced(s) && i <= j <= |s|
    ensures SingleSpaced(s[i..j])
  {
    var t := s[i..j];
    assert forall k :: 0 <= k < |t| ==> t[k] == s[i + k];
  }

  /** Collapsing and then trimming leaves a tidy text. */
  lemma CollapsedTrimmedIsTidy(s: string)
    ensures Tidy(Trim(CollapseSpaces(s)))
  {
    var c := CollapseSpaces(s);
    CollapseSpacesIsSingleSpaced(s);
    var r := Trim(c);
    var i := |c| - |TrimStart(c)|;
    TrimOccurs(c);
    SingleSpacedSlice(c, i, i + |r|);
  }

  /** A run without white space is copied through the collapse unchanged. */
  lemma {:induction false} CollapseKeepsWord(w: string, rest: string)
    requires forall i :: 0 <= i < |w| ==> !IsSpace(w[i])
    ensures CollapseSpaces(w + rest) == w + CollapseSpaces(rest)
    decreases |w|
  {
    if w == [] {
      assert w + rest == rest;
    } else {
      var x := w + rest;
      assert x[0] == w[0] && x[1..] == w[1..] + rest;
      CollapseKeepsWord(w[1..], rest);
      assert w == [w[0]] + w[1..];
    }
  }

  /** " " when the text ends in white space, "" otherwise. */
  function TrailingSpace(s: string): string
  {
    if s != [] && IsSpace(s[|s| - 1]) then " " else ""
  }

  lemma TrailingOfAppend(w: string, rest: string)
    requires rest != []
    ensures TrailingSpace(w + rest) == TrailingSpace(rest)
  {
    assert (w + rest)[|w + rest| - 1] == rest[|rest| - 1];
  }

  lemma Regroup(a: string, b: string, c: string, d: string)
    ensures a + (b + c + d) == (a + b + c) + d
    ensures a + (b + c) == a + b + c
  {
  }

  lemma JoinCons(w: string, ws: seq<string>, sep: string)
    requires ws != []
    ensures Join([w] + ws, sep) == w + sep + Join(ws, sep)
  {
    assert ([w] + ws)[1..] == ws;
  }

  /** A text that does not begin with white space collapses to its words joined by single
      spaces, plus one space if it ended in white space. */
  lemma {:induction false} CollapseFromWord(s: string)
    requires s == [] || !IsSpace(s[0])
    ensures CollapseSpaces(s) == Join(Words(s), " ") + TrailingSpace(s)
    decreases |s|, 1
  {
    if s != [] {
      var w := Run(s);
      var rest := s[|w|..];
      assert s == w + rest;
      CollapseKeepsWord(w, rest);
      assert Words(s) == [w] + Words(rest);
      if rest == [] {
        assert s[|s| - 1] == w[|w| - 1];
        assert Words(s) == [w];
      } else {
        CollapseFromSpace(rest);
        TrailingOfAppend(w, rest);
        var t := TrailingSpace(rest);
        if Words(rest) == [] {
          assert Words(s) == [w];
          assert CollapseSpaces(s) == w + " " == Join(Words(s), " ") + t;
        } else {
          var j := Join(Words(rest), " ");
          JoinCons(w, Words(rest), " ");
          assert CollapseSpaces(s) == w + (" " + j + t);
          Regroup(w, " ", j, t);
        }
      }
    }
  }

  /** A text that begins with white space collapses to one space, then its words joined by
      single spaces and one more space if it ended in white space; a blank text collapses
      to a single space. */
  lemma {:induction false} CollapseFromSpace(s: string)
    requires s != [] && IsSpace(s[0])
    ensures Words(s) == [] ==> CollapseSpaces(s) == " " && TrailingSpace(s) == " "
    ensures Words(s) != [] ==> CollapseSpaces(s) == " " + Join(Words(s), " ") + TrailingSpace(s)
    decreases |s|, 0
  {
    var u := TrimStart(s[1..]);
    WordsOfTrimStart(s[1..]);
    TrimStartIsSuffix(s[1..]);
    CollapseFromWord(u);
    assert CollapseSpaces(s) == " " + CollapseSpaces(u);
    if u == [] {
      assert IsSpace(s[|s| - 1]);
    } else {
      var j, t := Join(Words(u), " "), TrailingSpace(u);
      assert Words(u) != [];
      assert s == s[..|s| - |u|] + u;
      TrailingOfAppend(s[..|s| - |u|], u);
      assert Words(s) == Words(u) && TrailingSpace(s) == t;
      assert CollapseSpaces(u) == j + t;
      Regroup(" ", j, t, "");
    }
  }

  /** Joined words neither begin nor end with white space, and are empty only when there
      are no words. */
  lemma {:induction false} JoinedWordsAreTrimmed(ws: seq<string>)
    requires forall k :: 0 <= k < |ws| ==> IsWord(ws[k])
    ensures Join(ws, " ") == [] <==> ws == []
    ensures ws != [] ==> !IsSpace(Join(ws, " ")[0]) && !IsSpace(Join(ws, " ")[|Join(ws, " ")| - 1])
    decreases |ws|
  {
    if |ws| > 1 {
      JoinedWordsAreTrimmed(ws[1..]);
      assert IsWord(ws[0]);
    } else if |ws| == 1 {
      assert IsWord(ws[0]);
    }
  }

  /** A text with no white space at either end, padded with white space, trims back to it. */
  lemma TrimPadded(a: string, j: string, b: string)
    requires forall i :: 0 <= i < |a| ==> IsSpace(a[i])
    requires forall i :: 0 <= i < |b| ==> IsSpace(b[i])
    requires j != [] ==> !IsSpace(j[0]) && !IsSpace(j[|j| - 1])
    ensures Trim(a + j + b) == j
  {
    var x := a + j + b;
    var r := Trim(x);
    var k := |x| - |TrimStart(x)|;
    TrimOccurs(x);
    if j != [] {
      assert x[|a|] == j[0];
      assert x[|a| + |j| - 1] == j[|j| - 1];
      if r != [] {
        assert x[k] == r[0] && x[k + |r| - 1] == r[|r| - 1];
      }
      assert k == |a|;
      assert k + |r| == |a| + |j|;
      assert r == x[|a|..|a| + |j|] == j;
    }
  }

  lemma TrimPaddedRight(j: string, b: string)
    requires forall i :: 0 <= i < |b| ==> IsSpace(b[i])
    requires j != [] ==> !IsSpace(j[0]) && !IsSpace(j[|j| - 1])
    ensures Trim(j + b) == j
  {
    assert [] + j + b == j + b;
    TrimPadded([], j, b);
  }

  /** A text with no white space at either end is its own trim. */
  lemma TrimKeeps(j: string)
    requires j != [] ==> !IsSpace(j[0]) && !IsSpace(j[|j| - 1])
    ensures Trim(j) == j
  {
    TrimPaddedRight(j, []);
    assert j + [] == j;
  }

  lemma TrimCollapseFromWord(s: string)
    requires s == [] || !IsSpace(s[0])
    ensures Trim(CollapseSpaces(s)) == Join(Words(s), " ")
  {
    var j, t := Join(Words(s), " "), TrailingSpace(s);
    JoinedWordsAreTrimmed(Words(s));
    CollapseFromWord(s);
    TrimPaddedRight(j, t);
  }

  lemma TrimCollapseFromSpace(s: string)
    requires s != [] && IsSpace(s[0])
    ensures Trim(CollapseSpaces(s)) == Join(Words(s), " ")
  {
    var j, t := Join(Words(s), " "), TrailingSpace(s);
    JoinedWordsAreTrimmed(Words(s));
    CollapseFromSpace(s);
    if Words(s) == [] {
      assert CollapseSpaces(s) == " " + j + [];
      TrimPadded(" ", j, []);
    } else {
      TrimPadded(" ", j, t);
    }
  }

  /** `replace(/\s+/g, ' ')` followed by `trim` leaves exactly the words of the text, in
      order and verbatim, separated by single spaces. */
  lemma CollapseThenTrimJoinsWords(s: string)
    ensures Trim(CollapseSpaces(s)) == Join(Words(s), " ")
  {
    if s != [] && IsSpace(s[0]) {
      TrimCollapseFromSpace(s);
    } else {
      TrimCollapseFromWord(s);
    }
  }

  /** Whatever the fillers, the cleaned text is tidy. */
  lemma {:induction false} CleanFromIsTidy(s: string, fillers: seq<string>)
    requires forall k :: 0 <= k < |fillers| ==> |fillers[k]| > 0
    ensures Tidy(CleanFrom(s, fillers))
    decreases |fillers|
  {
    if fillers == [] {
      CollapsedTrimmedIsTidy(s);
    } else {
      CleanFromIsTidy(Trim(RemoveWholeWord(s, fillers[0])), fillers[1..]);
    }
  }

  /** Tidy text is its own trim. */
  lemma TidyIsTrimmed(s: string)
    requires Tidy(s)
    ensures Trim(s) == s
  {
    assert s != [] ==> !IsSpace(s[0]) && !IsSpace(s[|s| - 1]);
    assert TrimStart(s) == s;
  }

  /** Single-spaced text has no run of white space to collapse. */
  lemma {:induction false} CollapseKeepsSingleSpaced(s: string)
    requires SingleSpaced(s)
    ensures CollapseSpaces(s) == s
    decreases |s|
  {
    if s != [] {
      SingleSpacedSlice(s, 1, |s|);
      CollapseKeepsSingleSpaced(s[1..]);
      if IsSpace(s[0]) && |s| > 1 {
        assert s[1] != ' ' && !IsSpace(s[1]);
        assert TrimStart(s[1..]) == s[1..];
      }
    }
  }

  /** Fillers that never match as whole words leave a trimmed text to the final clean-up. */
  lemma {:induction false} CleanFromUnmatched(s: string, fillers: seq<string>)
    requires forall k :: 0 <= k < |fillers| ==> |fillers[k]| > 0
    requires Trim(s) == s
    requires forall k, t :: 0 <= k < |fillers| && 0 <= t < |s| ==> !WholeWordAt(s, fillers[k], t)
    ensures CleanFrom(s, fillers) == Trim(CollapseSpaces(s))
    decreases |fillers|
  {
    if fillers != [] {
      assert RemoveWholeWord(s, fillers[0]) == s[0..] == s;
      assert forall k :: 1 <= k < |fillers| ==> fillers[k] == fillers[1..][k - 1];
      CleanFromUnmatched(s, fillers[1..]);
    }
  }

  /** Casing and words are kept: a turn whose trimmed text is tidy and holds no filler as a
      whole word is taken exactly as it was typed, trimmed. */
  lemma CleanKeepsTidyTurn(content: string)
    requires Tidy(Trim(content))
    requires forall k, t :: 0 <= k < |Fillers| && 0 <= t < |Trim(content)| ==>
               !WholeWordAt(Trim(content), Fillers[k], t)
    ensures Clean(content) == Trim(content)
  {
    var t := Trim(content);
    TidyIsTrimmed(t);
    CleanFromUnmatched(t, Fillers);
    CollapseKeepsSingleSpaced(t);
  }

  /** A word whose first two letters never stand side by side in the text, in any case,
      matches nowhere in it. */
  lemma SecondCharRulesOutMatch(s: string, w: string, lo: nat, hi: nat)
    requires |w| >= 2 && lo <= hi
    requires forall t :: lo <= t && t + 1 < hi && t + 1 < |s| ==>
               !(LowerChar(s[t]) == w[0] && LowerChar(s[t + 1]) == w[1])
    ensures forall t :: lo <= t < hi - 1 ==> !WholeWordAt(s, w, t)
  {
    forall t | lo <= t < hi - 1 && t + |w| <= |s|
      ensures !WholeWordAt(s, w, t)
    {
      var m := s[t..t + |w|];
      assert Lower(m)[0] == LowerChar(s[t]) && Lower(m)[1] == LowerChar(s[t + 1]);
    }
  }

  /** With a single whole-word match, the removal cuts out exactly that match. */
  lemma RemoveOnlyMatch(s: string, w: string, j: nat)
    requires |w| > 0 && j < |s| && WholeWordAt(s, w, j)
    requires forall t :: 0 <= t < j ==> !WholeWordAt(s, w, t)
    requires forall t :: j + |w| <= t < |s| ==> !WholeWordAt(s, w, t)
    ensures RemoveWholeWord(s, w) == s[..j] + s[j + |w|..]
  {
    NextMatchIsThatMatch(s, w, 0, j);
    RemoveWordUpToNext(s, w, 0);
  }

  /** "um" is the one filler in "John um Smith": it is cut out, leaving both spaces. */
  lemma UmIsRemoved(content: string)
    requires content == "John um Smith"
    ensures RemoveWholeWord(content, "um") == "John  Smith"
  {
    SecondCharRulesOutMatch(content, "um", 0, 6);
    SecondCharRulesOutMatch(content, "um", 7, |content| + 1);
    assert WholeWordAt(content, "um", 5) by {
      assert content[5..7] == "um";
    }
    RemoveOnlyMatch(content, "um", 5);
    assert content[..5] == "John " && content[7..] == " Smith";
  }

  /** None of the fillers after "um" occurs as a whole word in "John  Smith". */
  lemma JohnSmithHasNoOtherFiller(s: string)
    requires s == "John  Smith"
    ensures forall k, t :: 0 <= k < |Fillers[1..]| && 0 <= t < |s| ==> !WholeWordAt(s, Fillers[1..][k], t)
  {
    forall k | 0 <= k < |Fillers[1..]|
      ensures forall t :: 0 <= t < |s| ==> !WholeWordAt(s, Fillers[1..][k], t)
    {
      var w := Fillers[1..][k];
      SecondCharRulesOutMatch(s, w, 0, |s| + 1);
    }
  }

  /** Leading white space is dropped up to the first character that is not white space. */
  lemma {:induction false} TrimStartSkips(sp: string, b: string)
    requires forall i :: 0 <= i < |sp| ==> IsSpace(sp[i])
    requires b == [] || !IsSpace(b[0])
    ensures TrimStart(sp + b) == b
    decreases |sp|
  {
    if sp == [] {
      assert sp + b == b;
    } else {
      assert (sp + b)[1..] == sp[1..] + b;
      TrimStartSkips(sp[1..], b);
    }
  }

  /** Two words with white space between them collapse to the words and one space. */
  lemma CollapseTwoWords(a: string, sp: string, b: string)
    requires IsWord(a) && IsWord(b)
    requires sp != [] && forall i :: 0 <= i < |sp| ==> IsSpace(sp[i])
    ensures Trim(CollapseSpaces(a + sp + b)) == a + " " + b
  {
    var rest := sp + b;
    assert a + sp + b == a + rest;
    CollapseKeepsWord(a, rest);
    CollapseSpacesBeforeWord(sp, b);
    var j := a + " " + b;
    Regroup(a, " ", b, []);
    assert CollapseSpaces(a + rest) == j;
    assert !IsSpace(j[0]) && !IsSpace(j[|j| - 1]) by {
      assert IsWord(a) && IsWord(b);
      assert j[0] == a[0] && j[|j| - 1] == b[|b| - 1];
    }
    TrimKeeps(j);
  }

  /** White space before a word collapses to one space. */
  lemma CollapseSpacesBeforeWord(sp: string, b: string)
    requires IsWord(b)
    requires sp != [] && forall i :: 0 <= i < |sp| ==> IsSpace(sp[i])
    ensures CollapseSpaces(sp + b) == " " + b
  {
    assert (sp + b)[1..] == sp[1..] + b;
    TrimStartSkips(sp[1..], b);
    CollapseKeepsWord(b, []);
    assert b + [] == b;
  }

  /** The double space of "John  Smith" collapses to one. */
  lemma JohnSmithCollapses(s: string)
    requires s == "John  Smith"
    ensures Trim(CollapseSpaces(s)) == "John Smith"
  {
    assert s == "John" + "  " + "Smith";
    CollapseTwoWords("John", "  ", "Smith");
  }

  /** A filler between two words is removed and the double space it leaves collapses:
      "John um Smith" is taken as "John Smith", casing kept. */
  lemma JohnUmSmithIsCleaned(content: string)
    requires content == "John um Smith"
    ensures Clean(content) == "John Smith"
  {
    var mid := "John  Smith";
    TrimKeeps(content);
    FillersAreWords();
    CleanFromStep(content, Fillers, 0);
    assert Fillers[0..] == Fillers && Fillers[0] == "um";
    UmIsRemoved(content);
    TrimKeeps(mid);
    JohnSmithHasNoOtherFiller(mid);
    CleanFromUnmatched(mid, Fillers[1..]);
    JohnSmithCollapses(mid);
  }

  /** The turn with the fillers removed and the white space collapsed, casing kept. */
  function Clean(content: string): string
  {
    CleanFrom(Trim(content), Fillers)
  }

  // ---------------------------------------------------------------------------
  // The customer's name
  // ---------------------------------------------------------------------------

  /** A user turn is taken as the name: it is not just a filler, its cleaned text has one
      to three words and more than two characters, and its lower-cased text mentions
      none of the booking words. */
  predicate Accepts(content: string)
  {
    var lc := Lower(Trim(content));
    var cleaned := Clean(content);
    lc !in Fillers &&
    1 <= WordCount(cleaned) <= 3 &&
    !MentionsAny(lc, NameStopWords) &&
    |cleaned| > 2
  }

  /** What the scan makes of one user turn: its cleaned text when the turn is accepted. */
  function Candidate(content: string): (c: Option<string>)
    ensures c.Some? <==> Accepts(content)
    ensures c.Some? ==> c.value == Clean(content) && |c.value| > 2
  {
    if Accepts(content) then Some(Clean(content)) else None
  }

  function Candidates(turns: seq<Message>): (cs: seq<Option<string>>)
    ensures |cs| == |turns|
    ensures forall k :: 0 <= k < |turns| ==> cs[k] == Candidate(turns[k].content)
  {
    seq(|turns|, k requires 0 <= k < |turns| => Candidate(turns[k].content))
  }

  lemma CandidatesAppend(a: seq<Message>, b: seq<Message>)
    ensures Candidates(a + b) == Candidates(a) + Candidates(b)
  {
    forall i | 0 <= i < |a| + |b|
      ensures Candidates(a + b)[i] == (Candidates(a) + Candidates(b))[i]
    {
      if i < |a| {
        assert (a + b)[i] == a[i];
      } else {
        assert (a + b)[i] == b[i - |a|];
      }
    }
  }

  /** A candidate name has more than two characters, one to three words and tidy spacing. */
  lemma CandidateIsWellFormed(content: string)
    ensures var c := Candidate(content);
            c.Some? ==> |c.value| > 2 && 1 <= WordCount(c.value) <= 3 && Tidy(c.value)
  {
    CleanFromIsTidy(Trim(content), Fillers);
  }

  /** The first candidate found, or empty when there is none. */
  function FirstFound(cs: seq<Option<string>>): string
  {
    if cs == [] then ""
    else if cs[0].Some? then cs[0].value
    else FirstFound(cs[1..])
  }

  function NameOf(history: seq<Message>): string
  {
    FirstFound(Candidates(UserTurns(history)))
  }

  lemma {:induction false} FirstFoundIsFirst(cs: seq<Option<string>>)
    requires forall k :: 0 <= k < |cs| && cs[k].Some? ==> cs[k].value != ""
    ensures FirstFound(cs) == "" <==> forall k :: 0 <= k < |cs| ==> cs[k].None?
    ensures FirstFound(cs) != "" ==>
              exists k :: 0 <= k < |cs| && cs[k] == Some(FirstFound(cs)) &&
                forall j :: 0 <= j < k ==> cs[j].None?
  {
    if cs != [] {
      FirstFoundIsFirst(cs[1..]);
      assert forall k :: 1 <= k < |cs| ==> cs[k] == cs[1..][k - 1];
      if cs[0].None? && FirstFound(cs) != "" {
        var k :| 0 <= k < |cs[1..]| && cs[1..][k] == Some(FirstFound(cs[1..])) &&
          forall j :: 0 <= j < k ==> cs[1..][j].None?;
        assert cs[k + 1] == Some(FirstFound(cs));
      }
    }
  }

  /** The name of a history that starts with turn `m`: `m` cleaned when it is an accepted
      user turn, otherwise the name of the rest. */
  lemma NameOfCons(m: Message, rest: seq<Message>)
    ensures NameOf([m] + rest) ==
              if m.role == User && Accepts(m.content) then Clean(m.content) else NameOf(rest)
  {
    var h := [m] + rest;
    assert h[0] == m && h[1..] == rest;
    var u := UserTurns(rest);
    if m.role == User {
      assert UserTurns(h) == [m] + u;
      CandidatesAppend([m], u);
      var cs := Candidates([m] + u);
      assert cs[0] == Candidate(m.content);
      assert cs[1..] == Candidates(u);
    } else {
      assert UserTurns(h) == u;
    }
  }

  /** Turn `i` is the first user turn of `history` that the scan accepts. */
  predicate FirstAcceptedAt(history: seq<Message>, i: int)
  {
    0 <= i < |history| && history[i].role == User && Accepts(history[i].content) &&
    forall j :: 0 <= j < i && history[j].role == User ==> !Accepts(history[j].content)
  }

  /** The name is empty exactly when no user turn of the history is accepted. */
  lemma {:induction false} NameIsEmptyIffNoneAccepted(history: seq<Message>)
    ensures NameOf(history) == "" <==>
              forall i :: 0 <= i < |history| && history[i].role == User ==> !Accepts(history[i].content)
  {
    if history == [] {
      assert UserTurns(history) == [];
    } else {
      var m, rest := history[0], history[1..];
      assert history == [m] + rest;
      NameOfCons(m, rest);
      NameIsEmptyIffNoneAccepted(rest);
      assert forall i :: 1 <= i < |history| ==> history[i] == rest[i - 1];
      if m.role == User && Accepts(m.content) {
        assert |Clean(m.content)| > 2;
      }
    }
  }

  /** An accepted user turn at the head of a history is its first accepted one. */
  lemma FirstAcceptedAtHead(m: Message, rest: seq<Message>)
    requires m.role == User && Accepts(m.content)
    ensures FirstAcceptedAt([m] + rest, 0)
  {
  }

  /** In front of a turn that is not an accepted user turn, the first accepted turn moves
      one place on. */
  lemma FirstAcceptedShifts(m: Message, rest: seq<Message>, i: int)
    requires !(m.role == User && Accepts(m.content)) && FirstAcceptedAt(rest, i)
    ensures FirstAcceptedAt([m] + rest, i + 1)
  {
    var h := [m] + rest;
    assert forall j :: 1 <= j < |h| ==> h[j] == rest[j - 1];
  }

  /** A name, when there is one, is the first accepted user turn of the history, cleaned. */
  lemma {:induction false} NameIsFirstAcceptedUserTurn(history: seq<Message>)
    ensures NameOf(history) != "" ==>
              exists i :: FirstAcceptedAt(history, i) && NameOf(history) == Clean(history[i].content)
  {
    if history != [] {
      var m, rest := history[0], history[1..];
      assert history == [m] + rest;
      NameOfCons(m, rest);
      if m.role == User && Accepts(m.content) {
        FirstAcceptedAtHead(m, rest);
      } else if NameOf(rest) != "" {
        NameIsFirstAcceptedUserTurn(rest);
        var i :| FirstAcceptedAt(rest, i) && NameOf(rest) == Clean(rest[i].content);
        FirstAcceptedShifts(m, rest, i);
        assert history[i + 1] == rest[i];
      }
    }
  }

  /** An accepted name has one to three words, more than two characters and tidy spacing. */
  lemma NameIsWellFormed(history: seq<Message>)
    ensures var name := NameOf(history);
            name == "" || (|name| > 2 && 1 <= WordCount(name) <= 3 && Tidy(name))
  {
    var users := UserTurns(history);
    var cs := Candidates(users);
    FirstFoundIsFirst(cs);
    if NameOf(history) != "" {
      var k :| 0 <= k < |cs| && cs[k] == Some(FirstFound(cs));
      CandidateIsWellFormed(users[k].content);
    }
  }

  /** A turn whose trimmed, lower-cased text contains a booking word is never a name. */
  lemma StopWordRulesOut(content: string, k: nat)
    requires k < |NameStopWords| && Contains(Lower(Trim(content)), NameStopWords[k])
    ensures !Accepts(content)
  {
    MentionsAnyIff(Lower(Trim(content)), NameStopWords);
  }

  /** The stop word "am" is matched as a substring, so a turn reading "Sam" is never a name. */
  lemma SamIsNeverAName(content: string)
    requires Lower(Trim(content)) == "sam"
    ensures !Accepts(content)
  {
    assert OccursAt("sam", "am", 1);
    StopWordRulesOut(content, 10);
  }

  /** Only user turns are scanned: what the assistant says never changes the name. */
  lemma AssistantTurnsDoNotChangeName(history: seq<Message>, text: string)
    ensures NameOf(history + [Message(Assistant, text)]) == NameOf(history)
  {
    UserTurnsAppend(history, [Message(Assistant, text)]);
    assert UserTurns([Message(Assistant, text)]) == [];
    assert UserTurns(history) + [] == UserTurns(history);
  }

  lemma {:induction false} FirstFoundStays(a: seq<Option<string>>, b: seq<Option<string>>)
    requires FirstFound(a) != ""
    ensures FirstFound(a + b) == FirstFound(a)
  {
    assert (a + b)[0] == a[0];
    if a[0].None? {
      assert (a + b)[1..] == a[1..] + b;
      FirstFoundStays(a[1..], b);
    }
  }

  /** First match wins: once a name is found, later turns never replace it. */
  lemma NameIsStable(history: seq<Message>, later: seq<Message>)
    requires NameOf(history) != ""
    ensures NameOf(history + later) == NameOf(history)
  {
    var u1, u2 := UserTurns(history), UserTurns(later);
    UserTurnsAppend(history, later);
    CandidatesAppend(u1, u2);
    FirstFoundStays(Candidates(u1), Candidates(u2));
  }

  /** Every filler is a non-empty word. */
  lemma FillersAreWords()
    ensures forall i :: 0 <= i < |Fillers| ==> |Fillers[i]| > 0
  {
  }

  /** One step of the filler removal: filler `k` is removed, then the rest follow. */
  lemma CleanFromStep(s: string, fillers: seq<string>, k: nat)
    requires forall i :: 0 <= i < |fillers| ==> |fillers[i]| > 0
    requires k < |fillers|
    ensures CleanFrom(s, fillers[k..]) == CleanFrom(Trim(RemoveWholeWord(s, fillers[k])), fillers[k + 1..])
  {
    assert fillers[k..][0] == fillers[k] && fillers[k..][1..] == fillers[k + 1..];
  }

  /** The inner `forEach`: each filler in turn is removed and the text trimmed; what is
      left to do is the final collapse and trim. */
  method StripFillers(content: string) returns (cleaned: string)
    ensures CleanFrom(cleaned, []) == CleanFrom(content, Fillers)
  {
    FillersAreWords();
    cleaned := content;
    for k := 0 to |Fillers|
      invariant CleanFrom(cleaned, Fillers[k..]) == CleanFrom(content, Fillers)
    {
      CleanFromStep(cleaned, Fillers, k);
      cleaned := Trim(RemoveWholeWord(cleaned, Fillers[k]));
    }
  }

  /** One pass of the name loop: skip a filler-only turn, strip the fillers one by one,
      collapse the spaces, then test the cleaned text. */
  method ScanTurn(message: string) returns (c: Option<string>)
    ensures c == Candidate(message)
  {
    var content := Trim(message);
    var lowerContent := Lower(content);
    if lowerContent in Fillers {
      return None;
    }
    var cleaned := StripFillers(content);
    cleaned := Trim(CollapseSpaces(cleaned));
    var words := Split(cleaned, ' ');
    if 1 <= |words| <= 3 && !MentionsAny(lowerContent, NameStopWords) && |cleaned| > 2 {
      c := Some(cleaned);
    } else {
      c := None;
    }
  }

  /** The name loop: the first user turn that passes, or empty when none does. */
  method ExtractName(history: seq<Message>) returns (name: string)
    ensures name == NameOf(history)
  {
    name := "";
    var userMessages := UserTurns(history);
    ghost var cs := Candidates(userMessages);
    var i := 0;
    while i < |userMessages|
      invariant 0 <= i <= |userMessages|
      invariant name == ""
      invariant FirstFound(cs[i..]) == FirstFound(cs)
    {
      assert cs[i..][0] == cs[i] && cs[i..][1..] == cs[i + 1..];
      var c := ScanTurn(userMessages[i].content);
      if c.Some? {
        name := c.value;
        break;
      }
      i := i + 1;
    }
  }

  // ---------------------------------------------------------------------------
  // The service
  // ---------------------------------------------------------------------------

  function ServiceOf(history: seq<Message>): Option<Service>
  {
    ClassifyService(AllText(history))
  }

  lemma {:induction false} JoinHasPart(parts: seq<string>, sep: string, i: nat)
    requires i < |parts|
    ensures Contains(Join(parts, sep), parts[i])
  {
    if |parts| == 1 {
      assert OccursAt(parts[0], parts[0], 0);
    } else if i == 0 {
      ContainsInConcat(parts[0], sep + Join(parts[1..], sep), parts[0]);
      assert OccursAt(parts[0], parts[0], 0);
      assert parts[0] + sep + Join(parts[1..], sep) == parts[0] + (sep + Join(parts[1..], sep));
    } else {
      JoinHasPart(parts[1..], sep, i - 1);
      ContainsInConcat(parts[0] + sep, Join(parts[1..], sep), parts[i]);
    }
  }

  lemma LowerPreservesContains(s: string, p: string)
    requires Contains(s, p)
    ensures Contains(Lower(s), Lower(p))
  {
    var i :| 0 <= i <= |s| - |p| && OccursAt(s, p, i);
    LowerSlice(s, i, i + |p|);
    assert OccursAt(Lower(s), Lower(p), i);
  }

  /** A keyword in any turn, the user's or the assistant's, is seen in the joined text. */
  lemma KeywordInAnyTurnIsSeen(history: seq<Message>, i: nat, keyword: string)
    requires i < |history| && Contains(Lower(history[i].content), keyword)
    ensures Contains(AllText(history), keyword)
  {
    var parts := Contents(history);
    JoinHasPart(parts, " ", i);
    LowerPreservesContains(Join(parts, " "), parts[i]);
    ContainsTrans(AllText(history), Lower(history[i].content), keyword);
  }

  /** Service priority over the whole history: any turn saying "physio" gives physiotherapy;
      otherwise "massage"; otherwise "consultation"; otherwise no service. */
  lemma ServiceFollowsPriority(history: seq<Message>)
    ensures var text := AllText(history);
            (ServiceOf(history) == Some(Physiotherapy) <==> Contains(text, "physio")) &&
            (ServiceOf(history) == Some(Massage) <==> !Contains(text, "physio") && Contains(text, "massage")) &&
            (ServiceOf(history) == Some(GeneralConsultation) <==>
               !Contains(text, "physio") && !Contains(text, "massage") && Contains(text, "consultation")) &&
            (ServiceOf(history) == None <==>
               !Contains(text, "physio") && !Contains(text, "massage") && !Contains(text, "consultation"))
    ensures forall i :: 0 <= i < |history| && Contains(Lower(history[i].content), "physio") ==>
              ServiceOf(history) == Some(Physiotherapy)
  {
    ClassifyServicePriority(AllText(history));
    forall i | 0 <= i < |history| && Contains(Lower(history[i].content), "physio")
      ensures ServiceOf(history) == Some(Physiotherapy)
    {
      KeywordInAnyTurnIsSeen(history, i, "physio");
    }
  }

  // ---------------------------------------------------------------------------
  // The weekday
  // ---------------------------------------------------------------------------

  /** The first of `Days[i..]` the text mentions, in the fixed order, or -1.
      (The text is part of the measure for the same reason as in `CleanFrom`.) */
  function DayFrom(text: string, i: nat): (r: int)
    requires i <= |Days|
    ensures r == -1 || i <= r < |Days|
    ensures r == -1 <==> forall j :: i <= j < |Days| ==> !Contains(text, Days[j])
    ensures r >= 0 ==> Contains(text, Days[r]) && forall j :: i <= j < r ==> !Contains(text, Days[j])
    decreases |Days| - i, |text|
  {
    if i == |Days| then -1
    else if Contains(text, Days[i]) then i
    else DayFrom(text, i + 1)
  }

  /** The index of the weekday named first in priority order (0 = Monday .. 4 = Friday), or -1. */
  function DayIndexOf(text: string): int
  {
    DayFrom(text, 0)
  }

  /** The simulator's `for` loop over the weekday names, stopping at the first one found. */
  method FindDay(allText: string) returns (dayIndex: int)
    ensures dayIndex == DayIndexOf(allText)
  {
    dayIndex := -1;
    for i := 0 to |Days|
      invariant dayIndex == -1
      invariant DayFrom(allText, i) == DayIndexOf(allText)
    {
      if Contains(allText, Days[i]) {
        dayIndex := i;
        break;
      }
    }
  }

  /** Days from the current weekday to the next strictly later occurrence of the target
      (weekdays numbered as `getDay`). */
  function DaysUntil(targetDay: int, currentDay: int): (r: int)
    requires 1 <= targetDay <= 5 && 0 <= currentDay < 7
    ensures 1 <= r <= 7
    ensures (currentDay + r) % 7 == targetDay
  {
    var d := targetDay - currentDay;
    if d <= 0 then d + 7 else d
  }

  lemma WeekdayAfter(day: int, n: int)
    ensures Weekday(day + n) == (Weekday(day) + n) % 7
  {
  }

  // ---------------------------------------------------------------------------
  // The hour
  // ---------------------------------------------------------------------------

  /** What follows the hour digits: `am`, `pm`, a `:MM` suffix, or nothing of these. */
  datatype Modifier = NoModifier | AM | PM | Minutes

  datatype HourMatch = HourMatch(hour: nat, modifier: Modifier)

  /** The first index at or after `from` holding a digit. */
  function FirstDigit(s: string, from: nat): (r: Option<nat>)
    requires from <= |s|
    ensures r.None? <==> forall j :: from <= j < |s| ==> !IsDigit(s[j])
    ensures r.Some? ==> from <= r.value < |s| && IsDigit(s[r.value]) &&
                        forall j :: from <= j < r.value ==> !IsDigit(s[j])
    decreases |s| - from
  {
    if from == |s| then None
    else if IsDigit(s[from]) then Some(from)
    else FirstDigit(s, from + 1)
  }

  /** The optional group `(am|pm|:\d{2})` at index `k`, case-insensitively. */
  function ModifierAt(s: string, k: nat): Modifier
    requires k <= |s|
  {
    var rest := s[k..];
    if |rest| >= 2 && Lower(rest[..2]) == "am" then AM
    else if |rest| >= 2 && Lower(rest[..2]) == "pm" then PM
    else if |rest| >= 3 && rest[0] == ':' && IsDigit(rest[1]) && IsDigit(rest[2]) then Minutes
    else NoModifier
  }

  /** `(\d{1,2})\s*(am|pm|:\d{2})?` matched at a digit: one or two digits (greedy),
      any white space, then the optional modifier. */
  function MatchAt(s: string, i: nat): (m: HourMatch)
    requires i < |s| && IsDigit(s[i])
    ensures m.hour < 100
  {
    var two := i + 1 < |s| && IsDigit(s[i + 1]);
    var hour := if two then 10 * DigitValue(s[i]) + DigitValue(s[i + 1]) else DigitValue(s[i]);
    var j := if two then i + 2 else i + 1;
    var k := |s| - |TrimStart(s[j..])|;
    HourMatch(hour, ModifierAt(s, k))
  }

  /** The modifier group reads "am" or "pm" in any case, or a colon and two digits, exactly
      where it starts; the three alternatives exclude each other. */
  lemma ModifierAtReads(s: string, k: nat)
    requires k <= |s|
    ensures ModifierAt(s, k) == AM <==> k + 2 <= |s| && Lower(s[k..k + 2]) == "am"
    ensures ModifierAt(s, k) == PM <==> k + 2 <= |s| && Lower(s[k..k + 2]) == "pm"
    ensures ModifierAt(s, k) == Minutes <==>
              k + 3 <= |s| && s[k] == ':' && IsDigit(s[k + 1]) && IsDigit(s[k + 2])
  {
    if k + 2 <= |s| {
      assert s[k..][..2] == s[k..k + 2];
      if s[k] == ':' {
        assert Lower(s[k..k + 2])[0] == ':';
      }
    }
  }

  /** One or two digits read as a number. */
  lemma DecimalOfDigits(s: string, i: nat, j: nat)
    requires i < j <= i + 2 && j <= |s|
    requires forall t :: i <= t < j ==> IsDigit(s[t])
    ensures AllDigits(s[i..j])
    ensures Decimal(s[i..j]) ==
              if j == i + 1 then DigitValue(s[i]) else 10 * DigitValue(s[i]) + DigitValue(s[i + 1])
  {
    assert s[i..i + 1][..0] == [];
    assert Decimal(s[i..i + 1]) == DigitValue(s[i]);
    if j == i + 2 {
      assert s[i..i + 2][..1] == s[i..i + 1];
      assert s[i..i + 2][1] == s[i + 1];
    }
  }

  /** The match reads the longest run of at most two digits at `i` (ending at `j`) as a
      decimal number, skips the white space after it (ending at `k`), and reads the
      modifier where the white space ends. */
  lemma MatchAtReadsPattern(s: string, i: nat, j: nat, k: nat)
    requires i < j <= i + 2 && j <= k <= |s|
    requires forall t :: i <= t < j ==> IsDigit(s[t])
    requires j < i + 2 && j < |s| ==> !IsDigit(s[j])
    requires forall t :: j <= t < k ==> IsSpace(s[t])
    requires k < |s| ==> !IsSpace(s[k])
    ensures AllDigits(s[i..j])
    ensures MatchAt(s, i) == HourMatch(Decimal(s[i..j]), ModifierAt(s, k))
  {
    SkipSpaces(s, j, k);
    DecimalOfDigits(s, i, j);
  }

  /** The first match of the time pattern: it starts at the first digit of the text. */
  function FirstHour(s: string): Option<HourMatch>
  {
    match FirstDigit(s, 0)
    case None => None
    case Some(i) => Some(MatchAt(s, i))
  }

  /** The 24-hour conversion: 1..11 pm gain twelve hours, 12 am becomes 0,
      every other hour (a `:MM` suffix included) is taken literally. */
  function ConvertHour(m: HourMatch): nat
  {
    if m.modifier == PM && m.hour < 12 then m.hour + 12
    else if m.modifier == AM && m.hour == 12 then 0
    else m.hour
  }

  function HourOf(text: string): Option<nat>
  {
    match FirstHour(text)
    case None => None
    case Some(m) => Some(ConvertHour(m))
  }

  /** The hour comes from the first digit of the text, and is found exactly when there is one. */
  lemma HourFromFirstDigit(text: string)
    ensures HourOf(text).None? <==> forall j :: 0 <= j < |text| ==> !IsDigit(text[j])
    ensures HourOf(text).Some? ==>
              exists i :: 0 <= i < |text| && IsDigit(text[i]) &&
                (forall j :: 0 <= j < i ==> !IsDigit(text[j])) &&
                FirstHour(text) == Some(MatchAt(text, i))
  {
    var f := FirstDigit(text, 0);
  }

  /** On a twelve-hour reading the conversion is the usual one: am hours land in 0..11,
      pm hours in 12..23, both keeping the hour modulo twelve; "0 pm" is noon. */
  lemma TwelveHourConversion(h: nat)
    requires h <= 12
    ensures ConvertHour(HourMatch(h, AM)) == h % 12
    ensures ConvertHour(HourMatch(h, PM)) == h % 12 + 12
  {
  }

  /** Without am/pm, and for pm hours from 12 on, the digits are the hour. */
  lemma LiteralHours(h: nat)
    ensures ConvertHour(HourMatch(h, NoModifier)) == h
    ensures ConvertHour(HourMatch(h, Minutes)) == h
    ensures h >= 12 ==> ConvertHour(HourMatch(h, PM)) == h
    ensures h != 12 ==> ConvertHour(HourMatch(h, AM)) == h
  {
  }

  // ---------------------------------------------------------------------------
  // The appointment time
  // ---------------------------------------------------------------------------

  /** The appointment time a text gives, relative to "now". */
  function TimeOf(text: string, now: Clock): Instant
  {
    var d := DayIndexOf(text);
    var h := HourOf(text);
    if d >= 0 then
      AtHour(now.day + DaysUntil(d + 1, Weekday(now.day)), h.GetOr(DefaultHour))
    else if h.Some? then
      var t := AtHour(now.day, h.value);
      if Before(t, now) then t.(day := t.day + 1) else t
    else
      AtHour(now.day + 1, DefaultHour)
  }

  /** A named weekday gives its next strictly later occurrence, one to seven days ahead;
      the hour defaults to 14:00 and only an hour past 23 can push the day further. */
  lemma WeekdayRule(text: string, now: Clock)
    requires DayIndexOf(text) >= 0
    ensures var t := TimeOf(text, now);
            var d := DayIndexOf(text);
            var offset := DaysUntil(d + 1, Weekday(now.day));
            t.minute == 0 && t.hour < 24 &&
            (HourOf(text).None? ==> t == Instant(now.day + offset, DefaultHour, 0)) &&
            (HourOf(text).Some? && HourOf(text).value < 24 ==>
               t == Instant(now.day + offset, HourOf(text).value, 0)) &&
            (t.day == now.day + offset ==> 1 <= t.day - now.day <= 7 && Weekday(t.day) == d + 1)
  {
    var d := DayIndexOf(text);
    var offset := DaysUntil(d + 1, Weekday(now.day));
    WeekdayAfter(now.day, offset);
  }

  /** Without a weekday: no hour means tomorrow at 14:00; an hour means today at that hour,
      or tomorrow when that is already past. */
  lemma TodayOrTomorrowRule(text: string, now: Clock)
    requires DayIndexOf(text) < 0
    ensures var t := TimeOf(text, now);
            t.minute == 0 && t.hour < 24 &&
            (HourOf(text).None? ==> t == Instant(now.day + 1, DefaultHour, 0)) &&
            (HourOf(text).Some? && HourOf(text).value < 24 ==>
               var h := HourOf(text).value;
               t == Instant(if h * MsPerHour < now.ms then now.day + 1 else now.day, h, 0))
  {
  }

  /** The time slot is never in the past: a named weekday is strictly after today,
      and otherwise the slot is not earlier than "now". */
  lemma TimeIsNeverPast(text: string, now: Clock)
    ensures !Before(TimeOf(text, now), now)
    ensures DayIndexOf(text) >= 0 ==> TimeOf(text, now).day > now.day
  {
  }

  /** Any `:MM` minutes are dropped: the minute of the slot is always 0. */
  lemma MinutesAreDropped(text: string, now: Clock)
    ensures TimeOf(text, now).minute == 0
  {
  }

  /** "monday at 2 pm" names Monday. */
  lemma MondayAtTwoPmDay(text: string)
    requires text == "monday at 2 pm"
    ensures DayIndexOf(text) == 0
  {
    assert OccursAt(text, Days[0], 0);
  }

  /** "monday at 2 pm" reads as 14:00: its first digit is the "2" at index 10, and "pm"
      follows after one space. */
  lemma MondayAtTwoPmHour(text: string)
    requires text == "monday at 2 pm"
    ensures HourOf(text) == Some(14)
  {
    assert !IsDigit(text[0]) && !IsDigit(text[1]) && !IsDigit(text[2]) && !IsDigit(text[3]);
    assert !IsDigit(text[4]) && !IsDigit(text[5]) && !IsDigit(text[6]) && !IsDigit(text[7]);
    assert !IsDigit(text[8]) && !IsDigit(text[9]) && IsDigit(text[10]) && !IsDigit(text[11]);
    assert FirstDigit(text, 0) == Some(10);
    assert text[11..] == " pm" && TrimStart(" pm") == "pm";
    assert ModifierAt(text, 12) == PM by {
      assert text[12..][..2] == "pm";
    }
  }

  /** Said on a Wednesday, it books the coming Monday, five days on, at 14:00. */
  lemma MondayAtTwoPm(now: Clock)
    requires Weekday(now.day) == 3
    ensures TimeOf("monday at 2 pm", now) == Instant(now.day + 5, 14, 0)
  {
    MondayAtTwoPmDay("monday at 2 pm");
    MondayAtTwoPmHour("monday at 2 pm");
  }

  // ---------------------------------------------------------------------------
  // The whole booking
  // ---------------------------------------------------------------------------

  function BookingOf(history: seq<Message>, now: Clock): Booking
  {
    var allText := AllText(history);
    Booking(NameOf(history), ClassifyService(allText), TimeOf(allText, now))
  }

  /** `extractBookingFromHistory`: the three slots, computed as the simulator does. */
  method ExtractBookingFromHistory(history: seq<Message>, now: Clock) returns (booking: Booking)
    ensures booking == BookingOf(history, now)
  {
    var allText := AllText(history);
    var service := ClassifyService(allText);
    var name := ExtractName(history);
    var dayIndex := FindDay(allText);
    var foundTime: Option<nat> := None;
    var timeMatch := FirstHour(allText);
    if timeMatch.Some? {
      foundTime := Some(ConvertHour(timeMatch.value));
    }
    var time: Instant;
    if dayIndex >= 0 {
      var currentDay := Weekday(now.day);
      var targetDay := dayIndex + 1;
      var daysUntilTarget := targetDay - currentDay;
      if daysUntilTarget <= 0 {
        daysUntilTarget := daysUntilTarget + 7;
      }
      var targetDate := now.day + daysUntilTarget;
      if foundTime.Some? {
        time := AtHour(targetDate, foundTime.value);
      } else {
        time := AtHour(targetDate, DefaultHour);
      }
    } else if foundTime.Some? {
      time := AtHour(now.day, foundTime.value);
      if Before(time, now) {
        time := time.(day := time.day + 1);
      }
    } else {
      time := AtHour(now.day + 1, DefaultHour);
    }
    booking := Booking(name, service, time);
  }
}
