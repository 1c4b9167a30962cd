/** Splitting a text into words and the two-letter initials the application
    shows for a person: the upper-cased first letters of the words of the
    name, at most two. */
module Words {
  import opened Common

  /** `s.split(sep)` for a one-character separator: the pieces between
      separators, in order; there is always at least one piece. */
  function Split(s: string, sep: char): (r: seq<string>)
    ensures |r| >= 1
  {
    if s == [] then [""]
    else
      var rest := Split(s[1..], sep);
      if s[0] == sep then [""] + rest else [[s[0]] + rest[0]] + rest[1..]
  }

  /** `pieces.join(sep)`. */
  function Join(pieces: seq<string>, sep: char): string {
    if pieces == [] then ""
    else if |pieces| == 1 then pieces[0]
    else pieces[0] + [sep] + Join(pieces[1..], sep)
  }

  /** Splitting loses nothing: the pieces hold no separator and joining them
      back gives the text. */
  lemma {:induction false} SplitJoin(s: string, sep: char)
    ensures Join(Split(s, sep), sep) == s
    ensures forall i :: 0 <= i < |Split(s, sep)| ==> sep !in Split(s, sep)[i]
  {
    if s != [] {
      var rest := Split(s[1..], sep);
      SplitJoin(s[1..], sep);
      if s[0] == sep {
        assert ([""] + rest)[1..] == rest;
        assert s == [s[0]] + s[1..];
      } else {
        var r := [[s[0]] + rest[0]] + rest[1..];
        assert r[1..] == rest[1..];
        if |rest| == 1 {
          assert s == [s[0]] + rest[0];
        } else {
          assert Join(rest, sep) == rest[0] + [sep] + Join(rest[1..], sep);
          assert s == [s[0]] + s[1..];
        }
        forall i | 0 <= i < |r|
          ensures sep !in r[i]
        {
          if i > 0 {
            assert r[i] == rest[i];
          }
        }
      }
    }
  }

  predicate NonEmpty(w: string) { w != "" }

  /** `words.map(w => w[0]).join('')`: the first character of every word; an
      empty word contributes `undefined`, which joins as nothing. */
  function FirstChars(words: seq<string>): (r: string)
    ensures |r| == |Filter(words, NonEmpty)|
    ensures forall i :: 0 <= i < |r| ==> r[i] == Filter(words, NonEmpty)[i][0]
  {
    if words == [] then ""
    else if words[0] == "" then FirstChars(words[1..])
    else [words[0][0]] + FirstChars(words[1..])
  }

  /** `name.split(' ').map(w => w[0]).join('').toUpperCase().slice(0, 2)`. */
  function Initials(name: string): string {
    var all := ToUpper(FirstChars(Split(name, ' ')));
    if |all| <= 2 then all else all[..2]
  }

  /** The initials are the upper-cased first letters of the first (at most
      two) non-empty words of the name. */
  lemma InitialsSpec(name: string)
    ensures var words := Filter(Split(name, ' '), NonEmpty);
            && |Initials(name)| == (if |words| < 2 then |words| else 2)
            && forall i :: 0 <= i < |Initials(name)| ==> Initials(name)[i] == UpperChar(words[i][0])
  {
  }

  /** A name without spaces has one initial: its first letter, upper-cased. */
  lemma SingleWordInitial(name: string)
    requires name != "" && ' ' !in name
    ensures Initials(name) == [UpperChar(name[0])]
  {
    SplitJoin(name, ' ');
    var ws := Split(name, ' ');
    assert ws == [name];
  }
}
