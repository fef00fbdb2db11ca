/**
 * The calendar's data and its two pure operations: finding today's
 * microseason (`get_microseason_for_date`) and stripping accents from
 * romaji (`de_accent`).
 */
module Seasons {
  import opened Wrappers
  import opened PyStr

  /**
   * One entry of the "seasons" list: its number, English name, kanji,
   * romaji, and first and last day written "MM-DD".
   */
  datatype Season = Season(number: int, en: string, kanji: string, romaji: string, start: string, end: string)

  /** `f"{month:02d}-{day:02d}"`. */
  function FormatDate(month: nat, day: nat): (r: string)
    ensures month < 100 && day < 100 ==> |r| == 5 && r[2] == '-'
  {
    Pad2(month) + "-" + Pad2(day)
  }

  /** `ms['start'] <= date_str <= ms['end']`, a chained comparison of Python strings. */
  predicate Matches(s: Season, date: string)
  {
    Le(s.start, date) && Le(date, s.end)
  }

  /** The first season, in list order, whose range holds `date`; None when there is none. */
  function FirstMatch(seasons: seq<Season>, date: string): (r: Option<Season>)
    ensures r.None? <==> forall i :: 0 <= i < |seasons| ==> !Matches(seasons[i], date)
    ensures r.Some? ==>
      exists i :: 0 <= i < |seasons| && seasons[i] == r.value && Matches(r.value, date) &&
                  forall j :: 0 <= j < i ==> !Matches(seasons[j], date)
  {
    if seasons == [] then None
    else if Matches(seasons[0], date) then Some(seasons[0])
    else FirstMatch(seasons[1..], date)
  }

  /** `get_microseason_for_date(microseasons, month, day)`, as a value. */
  function Lookup(seasons: seq<Season>, month: nat, day: nat): (r: Option<Season>)
    ensures r.Some? ==> r.value in seasons && Matches(r.value, FormatDate(month, day))
    ensures r.None? <==> forall s :: s in seasons ==> !Matches(s, FormatDate(month, day))
  {
    FirstMatch(seasons, FormatDate(month, day))
  }

  /** Whichever index is the first match, `FirstMatch` returns the season found there. */
  lemma {:induction false} FirstMatchAt(seasons: seq<Season>, date: string, i: nat)
    requires i < |seasons| && Matches(seasons[i], date)
    requires forall j :: 0 <= j < i ==> !Matches(seasons[j], date)
    ensures FirstMatch(seasons, date) == Some(seasons[i])
  {
    if i > 0 {
      FirstMatchAt(seasons[1..], date, i - 1);
    }
  }

  /** `get_microseason_for_date`: a loop over the list that returns at the first match. */
  method GetMicroseasonForDate(seasons: seq<Season>, month: nat, day: nat) returns (r: Option<Season>)
    ensures r == Lookup(seasons, month, day)
  {
    var date := FormatDate(month, day);
    for i := 0 to |seasons|
      invariant forall j :: 0 <= j < i ==> !Matches(seasons[j], date)
    {
      if Matches(seasons[i], date) {
        FirstMatchAt(seasons, date, i);
        return Some(seasons[i]);
      }
    }
    return None;
  }

  /** (m1, d1) falls on or before (m2, d2): month first, then day. */
  predicate DateLe(m1: int, d1: int, m2: int, d2: int)
  {
    m1 < m2 || (m1 == m2 && d1 <= d2)
  }

  /**
   * Below 100, comparing "MM-DD" strings orders dates the way (month, day)
   * pairs are ordered.
   */
  lemma FormatDateOrder(m1: nat, d1: nat, m2: nat, d2: nat)
    requires m1 < 100 && d1 < 100 && m2 < 100 && d2 < 100
    ensures FormatDate(m1, d1) == FormatDate(m2, d2) <==> m1 == m2 && d1 == d2
    ensures Le(FormatDate(m1, d1), FormatDate(m2, d2)) <==> DateLe(m1, d1, m2, d2)
  {
    Pad2Digits(m1); Pad2Digits(d1); Pad2Digits(m2); Pad2Digits(d2);
    var x1, x2 := Pad2(m1), Pad2(m2);
    var y1, y2 := "-" + Pad2(d1), "-" + Pad2(d2);
    assert FormatDate(m1, d1) == x1 + y1 && FormatDate(m2, d2) == x2 + y2;
    LtConcat(x1, y1, x2, y2);
    LtConcat("-", Pad2(d1), "-", Pad2(d2));
    Pad2Order(m1, m2);
    Pad2Order(d1, d2);
    FormatDateInjective(m1, d1, m2, d2);
  }

  /** Below 100, different dates are written differently. */
  lemma FormatDateInjective(m1: nat, d1: nat, m2: nat, d2: nat)
    requires m1 < 100 && d1 < 100 && m2 < 100 && d2 < 100
    ensures FormatDate(m1, d1) == FormatDate(m2, d2) ==> m1 == m2 && d1 == d2
  {
    if FormatDate(m1, d1) == FormatDate(m2, d2) {
      Pad2Digits(m1); Pad2Digits(d1); Pad2Digits(m2); Pad2Digits(d2);
      assert FormatDate(m1, d1)[0] == FormatDate(m2, d2)[0] && FormatDate(m1, d1)[1] == FormatDate(m2, d2)[1];
      assert FormatDate(m1, d1)[3] == FormatDate(m2, d2)[3] && FormatDate(m1, d1)[4] == FormatDate(m2, d2)[4];
      assert m1 == m1 / 10 * 10 + m1 % 10 && m2 == m2 / 10 * 10 + m2 % 10;
      assert d1 == d1 / 10 * 10 + d1 % 10 && d2 == d2 / 10 * 10 + d2 % 10;
    }
  }

  /** For a season whose bounds are written the same way, matching is the calendar test start <= date <= end. */
  lemma MatchesAsDates(s: Season, sm: nat, sd: nat, em: nat, ed: nat, month: nat, day: nat)
    requires sm < 100 && sd < 100 && em < 100 && ed < 100 && month < 100 && day < 100
    requires s.start == FormatDate(sm, sd) && s.end == FormatDate(em, ed)
    ensures Matches(s, FormatDate(month, day)) <==> DateLe(sm, sd, month, day) && DateLe(month, day, em, ed)
  {
    FormatDateOrder(sm, sd, month, day);
    FormatDateOrder(month, day, em, ed);
  }

  /** A season whose end sorts before its start matches nothing: there is no year wrap. */
  lemma InvertedRangeNeverMatches(s: Season, date: string)
    requires Lt(s.end, s.start)
    ensures !Matches(s, date)
  {
    if Matches(s, date) {
      LeTransitive(s.start, date, s.end);
      if s.start == s.end {
        LtIrreflexive(s.end);
      } else {
        LtAsymmetric(s.end, s.start);
      }
      assert false;
    }
  }

  /**
   * A range meant to wrap the year, such as "12-20" to "01-10", is never
   * found: neither on 25 December nor on 5 January.
   */
  lemma WrappingRangeNeverMatches(s: Season, sm: nat, sd: nat, em: nat, ed: nat, date: string)
    requires sm < 100 && sd < 100 && em < 100 && ed < 100
    requires s.start == FormatDate(sm, sd) && s.end == FormatDate(em, ed)
    requires !DateLe(sm, sd, em, ed)
    ensures !Matches(s, date)
  {
    FormatDateOrder(em, ed, sm, sd);
    InvertedRangeNeverMatches(s, date);
  }

  // de_accent: five regular-expression substitutions, one per base vowel.

  /** à á â ã ä å */
  const AccentsA: set<char> := {'\U{E0}', '\U{E1}', '\U{E2}', '\U{E3}', '\U{E4}', '\U{E5}'}
  /** è é ê ë */
  const AccentsE: set<char> := {'\U{E8}', '\U{E9}', '\U{EA}', '\U{EB}'}
  /** ì í î ï */
  const AccentsI: set<char> := {'\U{EC}', '\U{ED}', '\U{EE}', '\U{EF}'}
  /** ò ó ô õ ö ō */
  const AccentsO: set<char> := {'\U{F2}', '\U{F3}', '\U{F4}', '\U{F5}', '\U{F6}', '\U{14D}'}
  /** ù ú û ü */
  const AccentsU: set<char> := {'\U{F9}', '\U{FA}', '\U{FB}', '\U{FC}'}

  /** What `re.sub(r'[...]', base, ...)` does to one character. */
  function Replace(c: char, accents: set<char>, base: char): char
  {
    if c in accents then base else c
  }

  /** `re.sub(r'[...]', base, s)` for a character class: every member of `accents` becomes `base`. */
  function Substitute(s: string, accents: set<char>, base: char): (r: string)
    ensures |r| == |s|
    ensures forall i :: 0 <= i < |s| ==> r[i] == Replace(s[i], accents, base)
  {
    if s == [] then [] else [Replace(s[0], accents, base)] + Substitute(s[1..], accents, base)
  }

  /** The letter a character stands for once its accent is dropped. */
  function BaseVowel(c: char): char
  {
    if c in AccentsA then 'a'
    else if c in AccentsE then 'e'
    else if c in AccentsI then 'i'
    else if c in AccentsO then 'o'
    else if c in AccentsU then 'u'
    else c
  }

  predicate IsAccented(c: char)
  {
    c in AccentsA || c in AccentsE || c in AccentsI || c in AccentsO || c in AccentsU
  }

  /** The five substitutions, applied in order to one character, give its base vowel. */
  lemma ReplaceChain(c: char)
    ensures Replace(Replace(Replace(Replace(Replace(c, AccentsA, 'a'), AccentsE, 'e'), AccentsI, 'i'), AccentsO, 'o'), AccentsU, 'u')
      == BaseVowel(c)
  {
  }

  /** `de_accent`: each listed accented vowel becomes its base vowel; every other character stays. */
  function DeAccent(s: string): (r: string)
    ensures |r| == |s|
    ensures forall k :: 0 <= k < |s| ==> r[k] == BaseVowel(s[k])
  {
    var a := Substitute(s, AccentsA, 'a');
    var e := Substitute(a, AccentsE, 'e');
    var i := Substitute(e, AccentsI, 'i');
    var o := Substitute(i, AccentsO, 'o');
    var u := Substitute(o, AccentsU, 'u');
    assert forall k :: 0 <= k < |s| ==> u[k] == BaseVowel(s[k]) by {
      forall k | 0 <= k < |s| ensures u[k] == BaseVowel(s[k]) {
        ReplaceChain(s[k]);
      }
    }
    u
  }

  lemma BaseVowelChar(c: char)
    ensures !IsAccented(BaseVowel(c))
    ensures !IsAccented(c) ==> BaseVowel(c) == c
  {
  }

  /** No listed accented vowel survives, and nothing else is touched (in particular no case change). */
  lemma DeAccentCharacters(s: string)
    ensures forall i :: 0 <= i < |s| ==> !IsAccented(DeAccent(s)[i])
    ensures forall i :: 0 <= i < |s| && !IsAccented(s[i]) ==> DeAccent(s)[i] == s[i]
  {
    forall i | 0 <= i < |s| {
      BaseVowelChar(s[i]);
    }
  }

  lemma DeAccentIdempotent(s: string)
    ensures DeAccent(DeAccent(s)) == DeAccent(s)
  {
    var r := DeAccent(s);
    forall i | 0 <= i < |r| ensures DeAccent(r)[i] == r[i] {
      BaseVowelChar(s[i]);
    }
  }

  /**
   * "KŌō" becomes "KŌo": the small ō loses its macron, while the capital Ō is
   * in no listed set and stays, as does the K: nothing is lowercased.
   */
  lemma DeAccentKeepsCapital()
    ensures DeAccent("K\U{14C}\U{14D}") == "K\U{14C}o"
  {
    var r := DeAccent("K\U{14C}\U{14D}");
    BaseVowelChar('K'); BaseVowelChar('\U{14C}');
    assert BaseVowel('\U{14D}') == 'o';
    assert r[0] == 'K' && r[1] == '\U{14C}' && r[2] == 'o';
  }
}
