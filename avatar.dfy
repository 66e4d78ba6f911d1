/** The avatar (src/components/atoms/Avatar.jsx): the initials of a name and
    the choice between the picture, the initials and the user icon. */
module Avatar {
  import opened Seqs
  import opened Text

  /** `.map(n => n[0]).join("")`: the first character of each piece; an
      empty piece gives `undefined`, which `join` writes as nothing. */
  function Firsts(pieces: seq<string>): (r: string)
    ensures |r| <= |pieces|
  {
    if pieces == [] then []
    else (if pieces[0] != [] then [pieces[0][0]] else []) + Firsts(pieces[1..])
  }

  /** The non-empty pieces, in order, and their first characters. */
  function Heads(pieces: seq<string>): (r: string)
    ensures |r| == |Filter(pieces, NonEmpty)|
  {
    var kept := Filter(pieces, NonEmpty);
    seq(|kept|, i requires 0 <= i < |kept| => kept[i][0])
  }

  /** Joining the first characters is taking one character from each
      non-empty piece, in order. */
  lemma {:induction false} FirstsAreHeads(pieces: seq<string>)
    ensures Firsts(pieces) == Heads(pieces)
  {
    if pieces != [] {
      var rest := pieces[1..];
      FirstsAreHeads(rest);
      var kept, later := Filter(pieces, NonEmpty), Filter(rest, NonEmpty);
      if pieces[0] != [] {
        assert kept == [pieces[0]] + later;
        var h, t := Heads(pieces), [pieces[0][0]] + Heads(rest);
        forall i | 0 <= i < |h|
          ensures h[i] == t[i]
        {
          if i > 0 {
            assert kept[i] == later[i - 1];
          }
        }
      } else {
        assert kept == later;
      }
    }
  }

  /** `getInitials`: "U" for a missing or empty name; otherwise the first
      character of every space-separated word, upper-cased. */
  function Initials(name: Option<string>): (r: string)
    ensures name.None? || name.value == [] ==> r == "U"
    ensures name.Some? && name.value != [] ==>
              r == Upper(Heads(Split(name.value, ' ')))
  {
    if name.None? || name.value == [] then "U"
    else
      FirstsAreHeads(Split(name.value, ' '));
      Upper(Firsts(Split(name.value, ' ')))
  }

  /** Upper-casing twice is upper-casing once. */
  lemma UpperIdempotent(s: string)
    ensures Upper(Upper(s)) == Upper(s)
  {
  }

  /** The initials are already upper case, hold no space, and are one
      character per word of the name, so a double space adds nothing. */
  lemma InitialsSpec(name: string)
    requires name != []
    ensures Upper(Initials(Some(name))) == Initials(Some(name))
    ensures ' ' !in Initials(Some(name))
    ensures |Initials(Some(name))| == |Filter(Split(name, ' '), NonEmpty)| <= Occurrences(name, ' ') + 1
  {
    var words := Filter(Split(name, ' '), NonEmpty);
    UpperIdempotent(Heads(Split(name, ' ')));
    forall i | 0 <= i < |words|
      ensures words[i][0] != ' '
    {
      assert words[i] in Split(name, ' ');
      assert words[i][0] in words[i];
    }
    SplitCount(name, ' ');
  }

  /** A one-word name gives its first letter, upper-cased. */
  lemma OneWordInitial(name: string)
    requires name != [] && ' ' !in name
    ensures Initials(Some(name)) == [UpperChar(name[0])]
  {
    SplitWithout(name, ' ');
    assert Filter([name], NonEmpty) == [name] by {
      assert [name][1..] == [];
    }
  }

  /** What the avatar draws. */
  datatype Face = Picture(src: string) | Letters(initials: string) | UserIcon

  /** The picture when there is a non-empty source; otherwise the initials
      of a non-empty fallback name; otherwise the user icon. */
  function FaceOf(src: Option<string>, fallback: Option<string>): (f: Face)
    ensures f.Picture? <==> src.Some? && src.value != []
    ensures f.Picture? ==> f.src == src.value
    ensures f.Letters? <==> !(src.Some? && src.value != []) && fallback.Some? && fallback.value != []
    ensures f.Letters? ==> f.initials == Upper(Heads(Split(fallback.value, ' ')))
  {
    if src.Some? && src.value != [] then Picture(src.value)
    else if fallback.Some? && fallback.value != [] then Letters(Initials(fallback))
    else UserIcon
  }

  /** A fallback name made of spaces alone passes the guard but has no
      words: the avatar shows empty initials rather than "U" or the icon. */
  lemma SpacesOnlyNameShowsNoLetters()
    ensures FaceOf(None, Some("  ")) == Letters("")
  {
    assert Split("  ", ' ') == ["", "", ""] by {
      assert "  "[1..] == " " && " "[1..] == "";
    }
    assert Filter(["", "", ""], NonEmpty) == [] by {
      assert ["", "", ""][1..] == ["", ""] && ["", ""][1..] == [""] && [""][1..] == [];
    }
  }
}
