/** Tag normalisation of the upload handler: the `tags` field of the request
    body becomes at most two tag strings, by rules that depend on whether the
    field arrived as an array or as one comma-separated string. */
module Tags {
  import opened Text

  /** The shapes `req.body.tags` can take. */
  datatype TagsField =
    | Absent                       // the field was not sent
    | TagArray(items: seq<string>) // repeated field, parsed as an array
    | TagText(text: string)        // one string such as "dogs,green"
    | OtherValue                   // any other JSON value

  const MaxTags: nat := 2

  /** `xs.slice(0, n)` */
  function Take<T>(xs: seq<T>, n: nat): (r: seq<T>)
    ensures |r| == if |xs| < n then |xs| else n
    ensures r == xs[..|r|]
  {
    if |xs| < n then xs else xs[..n]
  }

  /** `xs.map((t) => t.trim())` */
  function TrimEach(xs: seq<string>): (r: seq<string>)
    ensures |r| == |xs|
    ensures forall i :: 0 <= i < |r| ==> r[i] == Trim(xs[i])
  {
    if xs == [] then [] else [Trim(xs[0])] + TrimEach(xs[1..])
  }

  /** `xs.filter(Boolean)` on strings: the non-empty ones, in order. */
  function DropEmpty(xs: seq<string>): (r: seq<string>)
    ensures forall i :: 0 <= i < |r| ==> r[i] != [] && r[i] in xs
    ensures forall x :: x in xs && x != [] ==> x in r
    ensures |r| <= |xs|
  {
    if xs == [] then []
    else if xs[0] == [] then DropEmpty(xs[1..])
    else [xs[0]] + DropEmpty(xs[1..])
  }

  /** Filtering keeps the input order: it distributes over concatenation. */
  lemma {:induction false} DropEmptyConcat(a: seq<string>, b: seq<string>)
    ensures DropEmpty(a + b) == DropEmpty(a) + DropEmpty(b)
    decreases |a|
  {
    if a == [] {
      assert a + b == b;
    } else {
      assert (a + b)[0] == a[0] && (a + b)[1..] == a[1..] + b;
      DropEmptyConcat(a[1..], b);
      if a[0] != [] {
        assert DropEmpty(a + b) == [a[0]] + (DropEmpty(a[1..]) + DropEmpty(b));
      }
    }
  }

  /** Lines 45-59 of the upload handler. A truthy array is cut to two
      entries and each is trimmed; a truthy string is split on commas, each
      piece trimmed, empty pieces dropped, and the rest cut to two; anything
      else leaves the tag list empty. */
  function NormalizeTags(field: TagsField): (tags: seq<string>)
    ensures |tags| <= MaxTags
    ensures field.Absent? || field.OtherValue? ==> tags == []
  {
    match field
    case TagArray(items) => TrimEach(Take(items, MaxTags))
    case TagText(text) =>
      if text == [] then []  // an empty string is falsy
      else Take(DropEmpty(TrimEach(Split(text, ','))), MaxTags)
    case _ => []
  }

  /** Array form: the first `min(2, |items|)` entries, each trimmed; an entry
      that is only spaces stays in the list as an empty tag. */
  lemma {:induction false} ArrayTags(items: seq<string>)
    ensures var tags := NormalizeTags(TagArray(items));
            |tags| == (if |items| < MaxTags then |items| else MaxTags) &&
            (forall i :: 0 <= i < |tags| ==> tags[i] == Trim(items[i])) &&
            (forall i :: 0 <= i < |tags| ==> (tags[i] == [] <==> AllSpace(items[i])))
  {
  }

  /** String form: at most two tags, none empty, none holding a comma, none
      with spaces at either end. */
  lemma {:induction false} TextTagsWellFormed(text: string)
    ensures var tags := NormalizeTags(TagText(text));
            forall i :: 0 <= i < |tags| ==>
              tags[i] != [] && ',' !in tags[i] && IsTrimmed(tags[i])
  {
    var tags := NormalizeTags(TagText(text));
    if text != [] {
      var pieces := Split(text, ',');
      var kept := DropEmpty(TrimEach(pieces));
      forall i | 0 <= i < |tags| ensures tags[i] != [] && ',' !in tags[i] && IsTrimmed(tags[i]) {
        assert tags[i] == kept[i];
        assert kept[i] in TrimEach(pieces);
        var j :| 0 <= j < |pieces| && TrimEach(pieces)[j] == kept[i];
        TrimAddsNothing(pieces[j], ',');
      }
    }
  }

  /** String form, a single piece: its trimmed text is the one tag, unless it
      is blank. */
  lemma {:induction false} TextTagsSinglePiece(a: string)
    requires ',' !in a
    ensures NormalizeTags(TagText(a)) == if AllSpace(a) then [] else [Trim(a)]
  {
    if a != [] {
      assert TrimEach([a]) == [Trim(a)];
    }
  }

  /** String form, a leading piece: a blank first piece is skipped, any other
      becomes the first tag ahead of the tags of the rest, still cut to two.
      With TextTagsSinglePiece this determines the result for every string,
      piece by piece from the left, so the tags keep the input order. */
  lemma {:induction false} TextTagsLeadingPiece(a: string, rest: string)
    requires ',' !in a
    ensures NormalizeTags(TagText(a + [','] + rest)) ==
            if AllSpace(a) then NormalizeTags(TagText(rest))
            else Take([Trim(a)] + NormalizeTags(TagText(rest)), MaxTags)
  {
    var restKept := DropEmpty(TrimEach(Split(rest, ',')));
    assert NormalizeTags(TagText(a + [','] + rest)) ==
           Take(DropEmpty([Trim(a)]) + restKept, MaxTags) by {
      KeptAfterLeadingPiece(a, rest);
    }
    assert NormalizeTags(TagText(rest)) == Take(restKept, MaxTags) by {
      RestTags(rest);
    }
    assert [Trim(a)][1..] == [];
    if !AllSpace(a) {
      assert DropEmpty([Trim(a)]) == [Trim(a)];
      assert Take([Trim(a)] + Take(restKept, MaxTags), MaxTags) == Take([Trim(a)] + restKept, MaxTags);
    } else {
      assert DropEmpty([Trim(a)]) == [];
      assert DropEmpty([Trim(a)]) + restKept == restKept;
    }
  }

  /** The kept pieces of `a,rest` are those of `a` followed by those of `rest`. */
  lemma {:induction false} KeptAfterLeadingPiece(a: string, rest: string)
    requires ',' !in a
    ensures NormalizeTags(TagText(a + [','] + rest)) ==
            Take(DropEmpty([Trim(a)]) + DropEmpty(TrimEach(Split(rest, ','))), MaxTags)
  {
    var text := a + [','] + rest;
    var restTrimmed := TrimEach(Split(rest, ','));
    assert text != [];
    assert TrimEach(Split(text, ',')) == [Trim(a)] + restTrimmed by {
      SplitAtSeparator(a, rest, ',');
      assert Split(text, ',') == [a] + Split(rest, ',');
    }
    assert DropEmpty([Trim(a)] + restTrimmed) == DropEmpty([Trim(a)]) + DropEmpty(restTrimmed) by {
      DropEmptyConcat([Trim(a)], restTrimmed);
    }
  }

  /** Every string, empty or not, normalises through the split pipeline. */
  lemma {:induction false} RestTags(rest: string)
    ensures NormalizeTags(TagText(rest)) == Take(DropEmpty(TrimEach(Split(rest, ','))), MaxTags)
  {
    if rest == [] {
      assert Split(rest, ',') == [[]];
      assert TrimEach([[]]) == [[]];
    }
  }

  /** String form with at least three pieces, the first two not blank
      (as in "dogs, green, blue"): the two leading pieces, trimmed, are the
      tags and the rest is ignored. */
  lemma {:induction false} FirstTwoPiecesWin(a: string, b: string, rest: string)
    requires ',' !in a && ',' !in b
    requires !AllSpace(a) && !AllSpace(b)
    ensures NormalizeTags(TagText(a + [','] + (b + [','] + rest))) == [Trim(a), Trim(b)]
  {
    var text := a + [','] + (b + [','] + rest);
    var kept := DropEmpty(TrimEach(Split(text, ',')));
    assert kept == [Trim(a)] + ([Trim(b)] + DropEmpty(TrimEach(Split(rest, ',')))) by {
      TwoLeadingPieces(a, b, rest);
    }
    assert text != [];
    assert Take(kept, MaxTags) == [Trim(a), Trim(b)];
  }

  /** The kept pieces of `a,b,rest`, with `a` and `b` not blank. */
  lemma {:induction false} TwoLeadingPieces(a: string, b: string, rest: string)
    requires ',' !in a && ',' !in b
    requires !AllSpace(a) && !AllSpace(b)
    ensures DropEmpty(TrimEach(Split(a + [','] + (b + [','] + rest), ','))) ==
            [Trim(a)] + ([Trim(b)] + DropEmpty(TrimEach(Split(rest, ','))))
  {
    var pieces := Split(rest, ',');
    var restTrimmed := TrimEach(pieces);
    var ta, tb := Trim(a), Trim(b);
    assert Split(a + [','] + (b + [','] + rest), ',') == [a] + ([b] + pieces) by {
      SplitAtSeparator(b, rest, ',');
      SplitAtSeparator(a, b + [','] + rest, ',');
    }
    assert TrimEach([a] + ([b] + pieces)) == [ta] + ([tb] + restTrimmed) by {
      assert ([a] + ([b] + pieces))[1..] == [b] + pieces;
      assert ([b] + pieces)[1..] == pieces;
    }
    assert ([ta] + ([tb] + restTrimmed))[1..] == [tb] + restTrimmed;
    assert ([tb] + restTrimmed)[1..] == restTrimmed;
  }

  /** Array form with at least three entries (as in ["a ", " b", "c"]): the
      first two, trimmed, and nothing else. */
  lemma {:induction false} ArrayFirstTwo(a: string, b: string, rest: seq<string>)
    ensures NormalizeTags(TagArray([a, b] + rest)) == [Trim(a), Trim(b)]
  {
    ArrayTags([a, b] + rest);
  }

  /** A blank array entry is kept as an empty tag: the array form has no
      filter. */
  lemma {:induction false} ArrayKeepsBlank()
    ensures NormalizeTags(TagArray(["  ", "x"])) == ["", "x"]
  {
    assert Trim("  ") == "";
    assert Trim("x") == "x" by {
      assert "x" == "" + "x" + "";
      TrimPadded("", "x", "");
    }
  }
}
