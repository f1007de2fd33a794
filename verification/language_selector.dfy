/**
  The language picker (components/language-selector.tsx): the lookup of the
  selected language by code, the case-insensitive search over code, English
  name and native name, and what choosing an entry does.
 */
module LanguageSelector {
  import opened Wrappers
  import Seqs
  import opened Languages

  // ---------------------------------------------------------------------------
  // Strings
  // ---------------------------------------------------------------------------

  /** Lower-casing of one character; only the ASCII letters are mapped. */
  function LowerChar(ch: char): char
  {
    if 'A' <= ch <= 'Z' then (ch as int + 32) as char else ch
  }

  /** `toLowerCase`, restricted to ASCII letters. */
  function Lower(s: string): string
  {
    seq(|s|, i requires 0 <= i < |s| => LowerChar(s[i]))
  }

  /** `hay.includes(needle)`: `needle` occurs in `hay` as a contiguous block, that is, it begins some suffix of `hay`. */
  predicate Includes(hay: string, needle: string)
  {
    exists i :: 0 <= i <= |hay| && needle <= hay[i..]
  }

  /** Every string includes the empty string. */
  lemma IncludesEmpty(hay: string)
    ensures Includes(hay, "")
  {
    assert "" <= hay[0..];
  }

  // ---------------------------------------------------------------------------
  // Lookup and search
  // ---------------------------------------------------------------------------

  /** Position `i` holds the first language whose code is `value`. */
  predicate FirstWithCode(langs: seq<Language>, value: string, i: int)
  {
    0 <= i < |langs| && langs[i].code == value &&
    forall k :: 0 <= k < i ==> langs[k].code != value
  }

  /** The language whose code is `value`; the first one when several share it,
      None when there is none (`Array.prototype.find`). */
  function FindByCode(langs: seq<Language>, value: string): (r: Option<Language>)
    ensures r.None? <==> forall i :: 0 <= i < |langs| ==> langs[i].code != value
    ensures r.Some? ==> exists i :: FirstWithCode(langs, value, i) && langs[i] == r.value
  {
    if langs == [] then None
    else if langs[0].code == value then
      assert FirstWithCode(langs, value, 0);
      Some(langs[0])
    else
      var r := FindByCode(langs[1..], value);
      if r.None? then
        assert forall i :: 1 <= i < |langs| ==> langs[i] == langs[1..][i - 1];
        r
      else
        var i :| FirstWithCode(langs[1..], value, i) && langs[1..][i] == r.value;
        assert forall k :: 1 <= k < i + 1 ==> langs[k] == langs[1..][k - 1];
        assert FirstWithCode(langs, value, i + 1);
        r
  }

  /** A language matches a lower-cased search when its code, name or native
      name, lower-cased, includes it. */
  predicate Matches(l: Language, searchLower: string)
  {
    Includes(Lower(l.code), searchLower) ||
    Includes(Lower(l.name), searchLower) ||
    Includes(Lower(l.nativeName), searchLower)
  }

  /** The filter predicate for a lower-cased search. */
  function MatchesSearch(searchLower: string): Language -> bool
  {
    l => Matches(l, searchLower)
  }

  /** The entries the picker lists for `search`: all of them for an empty
      search, else the matching ones, in the table's order. */
  function FilterLanguages(langs: seq<Language>, search: string): (r: seq<Language>)
    ensures search == "" ==> r == langs
    ensures Seqs.IsSubseq(r, langs)
    ensures forall l :: l in r ==> l in langs && Matches(l, Lower(search))
    ensures forall l :: l in langs && Matches(l, Lower(search)) ==> l in r
    ensures |r| == Seqs.Count(langs, MatchesSearch(Lower(search)))
  {
    if search == "" then
      assert Lower(search) == "";
      assert forall l :: Matches(l, Lower(search)) by {
        forall l: Language ensures Matches(l, Lower(search)) {
          IncludesEmpty(Lower(l.code));
        }
      }
      Seqs.SubseqRefl(langs);
      Seqs.FilterKeepsAll(langs, MatchesSearch(Lower(search)));
      langs
    else
      var r := Seqs.Filter(langs, MatchesSearch(Lower(search)));
      Seqs.SubseqMembers(r, langs);
      r
  }

  /** The shortcut for an empty search agrees with the general filter: the
      empty string is included in every field. */
  lemma EmptySearchShortcut(langs: seq<Language>)
    ensures FilterLanguages(langs, "") == Seqs.Filter(langs, MatchesSearch(""))
  {
  }

  /** The search ignores letter case: two searches that lower-case alike list
      the same entries. */
  lemma SearchIgnoresCase(langs: seq<Language>, s1: string, s2: string)
    requires Lower(s1) == Lower(s2)
    ensures FilterLanguages(langs, s1) == FilterLanguages(langs, s2)
  {
  }

  // ---------------------------------------------------------------------------
  // Choosing an entry
  // ---------------------------------------------------------------------------

  /** The picker's own state: whether the popover is open, and the search text. */
  datatype PickerState = PickerState(open: bool, search: string)

  /** The result of choosing an entry: the language passed to `onChange`,
      and the picker's next state. */
  datatype Choice = Choice(chosen: Language, next: PickerState)

  /** Choosing entry `l`: it is passed on, the popover closes, the search clears. */
  function Choose(st: PickerState, l: Language): (c: Choice)
    ensures c.chosen == l && !c.next.open && c.next.search == ""
  {
    Choice(l, PickerState(false, ""))
  }

  /** No two languages of the table share a code. */
  predicate UniqueCodes(langs: seq<Language>)
  {
    forall i, j :: 0 <= i < j < |langs| ==> langs[i].code != langs[j].code
  }

  /** Choosing an entry the search listed closes the picker with the full list
      restored, and, when codes are unique, the page's lookup by the chosen
      code finds that very entry again. */
  lemma ChooseRoundTrip(langs: seq<Language>, st: PickerState, l: Language)
    requires l in FilterLanguages(langs, st.search)
    requires UniqueCodes(langs)
    ensures var c := Choose(st, l);
            !c.next.open && FilterLanguages(langs, c.next.search) == langs &&
            FindByCode(langs, c.chosen.code) == Some(l)
  {
  }
}
