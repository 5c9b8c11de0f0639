/**
 * `getInitials`, written the same way in the dashboard and the profile page: the first
 * character of each space-separated word, upper-cased, at most two of them, and `'U'` when
 * that leaves nothing or there is no name.
 */
module Initials {
  import opened Common
  import opened Text

  /** `words.map(n => n[0]).join('')`: an empty word contributes nothing (`undefined` joins as the empty text). */
  function FirstLetters(words: seq<string>): (r: string)
    ensures |r| <= |words|
    decreases |words|
  {
    if words == [] then ""
    else (if words[0] == "" then "" else [words[0][0]]) + FirstLetters(words[1..])
  }

  function InitialsOf(name: Option<string>): (r: string)
    ensures 1 <= |r| <= 2
  {
    if name.None? then "U"
    else
      var letters := UpperText(FirstLetters(Split(name.value, ' ')));
      var kept := if |letters| <= 2 then letters else letters[..2];
      if kept == "" then "U" else kept
  }

  /** The first non-space character of `s`, if any. */
  function FirstNonSpace(s: string): (r: Option<char>)
    ensures r.Some? <==> exists i :: 0 <= i < |s| && s[i] != ' '
    ensures r.Some? ==> r.value != ' '
    decreases |s|
  {
    if s == [] then None else if s[0] != ' ' then Some(s[0]) else FirstNonSpace(s[1..])
  }

  /** The letters taken from `s` begin with its first non-space character, and there are none when it has none. */
  lemma {:induction false} FirstLettersStart(s: string)
    ensures var letters := FirstLetters(Split(s, ' '));
      (FirstNonSpace(s).None? <==> letters == "") &&
      (FirstNonSpace(s).Some? ==> letters[0] == FirstNonSpace(s).value)
    decreases |s|
  {
    var i := IndexOf(s, ' ');
    if i == |s| {
      assert Split(s, ' ') == [s];
      assert FirstLetters([s]) == (if s == "" then "" else [s[0]]) + FirstLetters([]);
      if s != [] {
        assert s[0] != ' ';
      }
    } else {
      var words := Split(s, ' ');
      assert words == [s[..i]] + Split(s[i + 1..], ' ');
      assert words[1..] == Split(s[i + 1..], ' ');
      FirstLettersStart(s[i + 1..]);
      if i == 0 {
        assert s[..i] == "";
        assert FirstNonSpace(s) == FirstNonSpace(s[1..]);
      } else {
        assert s[0] != ' ';
        assert s[..i][0] == s[0];
      }
    }
  }

  /** The initials begin with the first non-space character upper-cased; a name without one gives `'U'`. */
  lemma FirstInitial(name: string)
    ensures FirstNonSpace(name).Some? ==> InitialsOf(Some(name))[0] == Upper(FirstNonSpace(name).value)
    ensures FirstNonSpace(name).None? ==> InitialsOf(Some(name)) == "U"
  {
    FirstLettersStart(name);
  }

  /** Two words separated by one space give their first letters, upper-cased. */
  lemma TwoWordInitials(first: string, last: string)
    requires first != "" && last != "" && ' ' !in first && ' ' !in last
    ensures InitialsOf(Some(first + " " + last)) == [Upper(first[0]), Upper(last[0])]
  {
    SplitTwoWords(first, last, ' ');
    assert first + " " + last == first + [' '] + last;
    var letters := FirstLetters([first, last]);
    assert letters == [first[0]] + FirstLetters([last]);
    assert FirstLetters([last]) == [last[0]] + FirstLetters([]);
  }
}
