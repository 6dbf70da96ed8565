/** norm_key and the composite keys of album art and lyrics, on bytes in the C locale. */
module AlbumKey {
  import opened Bytes

  const SPACE: Byte := 32
  const SINGLES: Text := [115, 105, 110, 103, 108, 101, 115]

  predicate IsSpace(b: Byte) { b == 32 || 9 <= b <= 13 }

  function ToLower(b: Byte): Byte { if 65 <= b <= 90 then b + 32 else b }

  /** Exactly the letters A-Z change, each to the letter at the same place of a-z; space, tab, newline, vertical tab,
      form feed and carriage return are the whitespace. */
  lemma BytesAreClassified(b: Byte)
    ensures 'A' <= b as char <= 'Z' ==> 'a' <= ToLower(b) as char <= 'z'
    ensures 'A' <= b as char <= 'Z' ==> ToLower(b) - 'a' as int == b - 'A' as int
    ensures !('A' <= b as char <= 'Z') ==> ToLower(b) == b
    ensures IsSpace(b) <==> b == ' ' as int || b in [9, 10, 11, 12, 13]
  {
  }

  // ---- The specification: split, lowercase, join --------------------------------------

  function Lowered(s: Text): (r: Text)
    ensures |r| == |s| && forall i :: 0 <= i < |s| ==> r[i] == ToLower(s[i])
  {
    seq(|s|, i requires 0 <= i < |s| => ToLower(s[i]))
  }

  /** Length of the word that starts the text. */
  function WordLen(s: Text): (n: nat)
    ensures n <= |s| && (forall i :: 0 <= i < n ==> !IsSpace(s[i])) && (n < |s| ==> IsSpace(s[n]))
  {
    if s == [] || IsSpace(s[0]) then 0 else 1 + WordLen(s[1..])
  }

  function Words(s: Text): seq<Text>
    decreases |s|
  {
    if s == [] then []
    else if IsSpace(s[0]) then Words(s[1..])
    else [s[..WordLen(s)]] + Words(s[WordLen(s)..])
  }

  function Join(ws: seq<Text>): Text {
    if ws == [] then [] else if |ws| == 1 then ws[0] else ws[0] + [SPACE] + Join(ws[1..])
  }

  function Norm(s: Text): Text { Join(Words(Lowered(s))) }

  // ---- Reading one more byte -------------------------------------------------------------

  predicate EndsOpen(s: Text) { s != [] && !IsSpace(s[|s| - 1]) }

  /** How the word list changes when a byte is appended. */
  function Grown(s: Text, ws: seq<Text>, c: Byte): seq<Text> {
    if IsSpace(c) then ws
    else if EndsOpen(s) && ws != [] then ws[..|ws| - 1] + [ws[|ws| - 1] + [c]]
    else ws + [[c]]
  }

  lemma WordLenIs(s: Text, n: nat)
    requires n <= |s| && (forall i :: 0 <= i < n ==> !IsSpace(s[i])) && (n < |s| ==> IsSpace(s[n]))
    ensures WordLen(s) == n
  {
  }

  lemma WordsOfOneWord(s: Text)
    requires s != [] && forall i :: 0 <= i < |s| ==> !IsSpace(s[i])
    ensures Words(s) == [s]
  {
    WordLenIs(s, |s|);
    assert s[..|s|] == s && s[|s|..] == [];
  }

  lemma WordsOfWordThenSpace(s: Text, c: Byte)
    requires s != [] && (forall i :: 0 <= i < |s| ==> !IsSpace(s[i])) && IsSpace(c)
    ensures Words(s + [c]) == [s]
  {
    var t := s + [c];
    WordLenIs(t, |s|);
    assert t[..|s|] == s && t[|s|..] == [c] && [c][1..] == [];
    assert Words([c]) == [];
    assert t[0] == s[0] && Words(t) == [s] + Words([c]);
  }

  lemma WordsAfterFirst(w: Text, tail: Text)
    requires w != [] && (forall i :: 0 <= i < |w| ==> !IsSpace(w[i])) && (tail != [] ==> IsSpace(tail[0]))
    ensures Words(w + tail) == [w] + Words(tail)
  {
    var s := w + tail;
    WordLenIs(s, |w|);
    assert s[0] == w[0] && s[..|w|] == w && s[|w|..] == tail;
  }

  lemma FirstWord(w: Text, tail: Text, c: Byte)
    requires w != [] && (forall i :: 0 <= i < |w| ==> !IsSpace(w[i])) && tail != [] && IsSpace(tail[0])
    ensures Words(w + tail) == [w] + Words(tail) && Words(w + tail + [c]) == [w] + Words(tail + [c])
  {
    WordsAfterFirst(w, tail);
    WordsAfterFirst(w, tail + [c]);
    assert w + tail + [c] == w + (tail + [c]);
  }

  lemma EndsLikeTail(w: Text, tail: Text)
    requires tail != []
    ensures EndsOpen(w + tail) == EndsOpen(tail)
  {
    assert (w + tail)[|w + tail| - 1] == tail[|tail| - 1];
  }

  /** Past the first word both texts go on from the same place. */
  lemma GrownAfterWord(w: Text, tail: Text, c: Byte)
    requires w != [] && (forall i :: 0 <= i < |w| ==> !IsSpace(w[i])) && tail != [] && IsSpace(tail[0])
    requires Words(tail + [c]) == Grown(tail, Words(tail), c)
    requires EndsOpen(tail) ==> Words(tail) != []
    ensures Words(w + tail + [c]) == Grown(w + tail, Words(w + tail), c) && Words(w + tail) != []
  {
    FirstWord(w, tail, c);
    EndsLikeTail(w, tail);
    GrownBehind(w, tail, w + tail, Words(tail), c);
  }

  lemma GrownBehind(w: Text, tail: Text, s: Text, ws: seq<Text>, c: Byte)
    requires EndsOpen(s) == EndsOpen(tail) && (EndsOpen(tail) ==> ws != [])
    ensures [w] + Grown(tail, ws, c) == Grown(s, [w] + ws, c)
  {
    if ws != [] {
      assert ([w] + ws)[..|ws|] == [w] + ws[..|ws| - 1];
    }
  }

  lemma {:induction false} WordsSnoc(s: Text, c: Byte)
    ensures Words(s + [c]) == Grown(s, Words(s), c)
    ensures EndsOpen(s) ==> Words(s) != []
    decreases |s|
  {
    if s == [] {
      WordsOfByte(c);
    } else if IsSpace(s[0]) {
      WordsSnoc(s[1..], c);
      GrownAfterSpace(s, c);
    } else if WordLen(s) < |s| {
      var w, tail := s[..WordLen(s)], s[WordLen(s)..];
      WordsSnoc(tail, c);
      GrownAfterWord(w, tail, c);
      assert s == w + tail;
    } else {
      GrownWord(s, c);
    }
  }

  lemma WordsOfByte(c: Byte)
    ensures Words([] + [c]) == Grown([], Words([]), c)
  {
    assert [] + [c] == [c] && [c][1..] == [];
    if !IsSpace(c) {
      WordsOfOneWord([c]);
    }
  }

  lemma GrownAfterSpace(s: Text, c: Byte)
    requires s != [] && IsSpace(s[0])
    requires Words(s[1..] + [c]) == Grown(s[1..], Words(s[1..]), c)
    ensures Words(s + [c]) == Grown(s, Words(s), c)
    ensures EndsOpen(s) ==> EndsOpen(s[1..])
  {
    var t := s + [c];
    assert t[0] == s[0] && t[1..] == s[1..] + [c];
  }

  lemma GrownWord(s: Text, c: Byte)
    requires s != [] && forall i :: 0 <= i < |s| ==> !IsSpace(s[i])
    ensures Words(s + [c]) == Grown(s, Words(s), c) && Words(s) != []
  {
    WordsOfOneWord(s);
    if IsSpace(c) {
      WordsOfWordThenSpace(s, c);
    } else {
      WordsOfOneWord(s + [c]);
    }
  }

  lemma {:induction false} JoinSnoc(ws: seq<Text>, w: Text)
    ensures Join(ws + [w]) == if ws == [] then w else Join(ws) + [SPACE] + w
  {
    if |ws| >= 1 {
      assert (ws + [w])[1..] == ws[1..] + [w];
      JoinSnoc(ws[1..], w);
    }
  }

  lemma JoinLastGrown(front: seq<Text>, w: Text, c: Byte)
    ensures Join(front + [w + [c]]) == Join(front + [w]) + [c]
  {
    JoinSnoc(front, w);
    JoinSnoc(front, w + [c]);
  }

  lemma JoinGrown(s: Text, c: Byte)
    requires !IsSpace(c)
    ensures Join(Words(s + [c])) ==
              Join(Words(s)) + (if EndsOpen(s) || Words(s) == [] then [c] else [SPACE, c])
  {
    WordsSnoc(s, c);
    var ws := Words(s);
    if EndsOpen(s) {
      assert ws == ws[..|ws| - 1] + [ws[|ws| - 1]];
      JoinLastGrown(ws[..|ws| - 1], ws[|ws| - 1], c);
    } else {
      JoinSnoc(ws, [c]);
    }
  }

  /** The one-pass loop computes the specification. */
  method NormKey(s: Text) returns (out: Text)
    ensures out == Norm(s)
  {
    out := [];
    var pendingSpace, started := false, false;
    ghost var low := Lowered(s);
    for i := 0 to |s|
      invariant out == Join(Words(low[..i]))
      invariant started <==> Words(low[..i]) != []
      invariant pendingSpace <==> started && !EndsOpen(low[..i])
    {
      assert low[..i + 1] == low[..i] + [low[i]];
      WordsSnoc(low[..i], low[i]);
      if IsSpace(s[i]) {
        pendingSpace := started;
        continue;
      }
      JoinGrown(low[..i], low[i]);
      if pendingSpace {
        out := out + [SPACE];
        pendingSpace := false;
      }
      out := out + [ToLower(s[i])];
      started := true;
    }
    assert low[..|s|] == low;
  }

  // ---- Normal forms ------------------------------------------------------------------------

  predicate IsWord(w: Text) { w != [] && forall i :: 0 <= i < |w| ==> !IsSpace(w[i]) && ToLower(w[i]) == w[i] }

  lemma {:induction false} WordsAreWords(s: Text)
    requires IsLower(s)
    ensures forall k :: 0 <= k < |Words(s)| ==> IsWord(Words(s)[k])
    decreases |s|
  {
    if s != [] {
      if IsSpace(s[0]) {
        WordsAreWords(s[1..]);
      } else {
        WordsAreWords(s[WordLen(s)..]);
      }
    }
  }

  lemma WordThenRest(w: Text, rest: Text)
    requires IsWord(w)
    ensures Words(w + [SPACE] + rest) == [w] + Words(rest)
  {
    var t := w + [SPACE] + rest;
    assert t[0] == w[0];
    WordLenIs(t, |w|);
    assert t[..|w|] == w && t[|w|..] == [SPACE] + rest && ([SPACE] + rest)[1..] == rest;
    assert Words([SPACE] + rest) == Words(rest);
  }

  predicate IsLower(s: Text) { forall i :: 0 <= i < |s| ==> ToLower(s[i]) == s[i] }

  /** Splitting undoes joining, and a joined list is already lowercase. */
  lemma {:induction false} WordsOfJoin(ws: seq<Text>)
    requires forall k :: 0 <= k < |ws| ==> IsWord(ws[k])
    ensures Words(Join(ws)) == ws && IsLower(Join(ws))
  {
    if |ws| == 1 {
      WordsOfOneWord(ws[0]);
    } else if |ws| > 1 {
      WordsOfJoin(ws[1..]);
      WordThenRest(ws[0], Join(ws[1..]));
      assert ws == [ws[0]] + ws[1..];
    }
  }

  lemma LoweredIsIdentityOn(s: Text)
    requires IsLower(s)
    ensures Lowered(s) == s
  {
  }

  lemma NormSplits(s: Text)
    ensures Words(Norm(s)) == Words(Lowered(s)) && Lowered(Norm(s)) == Norm(s)
  {
    WordsAreWords(Lowered(s));
    WordsOfJoin(Words(Lowered(s)));
    LoweredIsIdentityOn(Norm(s));
  }

  lemma NormIdempotent(s: Text)
    ensures Norm(Norm(s)) == Norm(s)
  {
    NormSplits(s);
  }

  /** Two strings normalise equally if and only if their lowercased word lists agree. */
  lemma NormEqualIff(s: Text, t: Text)
    ensures Norm(s) == Norm(t) <==> Words(Lowered(s)) == Words(Lowered(t))
  {
    NormSplits(s);
    NormSplits(t);
  }

  // ---- Composite keys -------------------------------------------------------------------------

  /** The preimage hashed by album_key_hex; an empty album is filed under "singles". */
  function AlbumComposite(artist: Text, album: Text): Text {
    Norm(artist) + [SEP] + (if Norm(album) == [] then SINGLES else Norm(album))
  }

  function LyricsComposite(artist: Text, title: Text): Text { Norm(artist) + [SEP] + Norm(title) }

  method BuildAlbumComposite(artist: Text, album: Text) returns (composite: Text)
    ensures composite == AlbumComposite(artist, album)
  {
    composite := NormKey(artist);
    composite := composite + [SEP];
    var alb := NormKey(album);
    composite := composite + (if alb == [] then SINGLES else alb);
  }

  lemma {:induction false} WordBytesFromText(s: Text, k: nat, b: Byte)
    requires k < |Words(s)| && b in Words(s)[k]
    ensures b in s
    decreases |s|
  {
    if IsSpace(s[0]) {
      WordBytesFromText(s[1..], k, b);
    } else if k > 0 {
      WordBytesFromText(s[WordLen(s)..], k - 1, b);
    }
  }

  lemma {:induction false} JoinBytesFromWords(ws: seq<Text>, b: Byte)
    requires b in Join(ws) && b != SPACE
    ensures exists k :: 0 <= k < |ws| && b in ws[k]
  {
    if |ws| > 1 && b !in ws[0] {
      JoinBytesFromWords(ws[1..], b);
      var k :| 0 <= k < |ws[1..]| && b in ws[1..][k];
      assert b in ws[k + 1];
    } else {
      assert b in ws[0];
    }
  }

  lemma SeparatorSurvives(s: Text)
    requires SEP !in s
    ensures SEP !in Norm(s)
  {
    if SEP in Norm(s) {
      JoinBytesFromWords(Words(Lowered(s)), SEP);
      var k :| 0 <= k < |Words(Lowered(s))| && SEP in Words(Lowered(s))[k];
      WordBytesFromText(Lowered(s), k, SEP);
    }
  }

  function FiledUnder(album: Text): seq<Text> {
    if Words(Lowered(album)) == [] then [SINGLES] else Words(Lowered(album))
  }

  lemma SinglesIsAWord()
    ensures IsWord(SINGLES) && Join([SINGLES]) == SINGLES
  {
  }

  /** For artists without the separator byte the composite identifies artist and album exactly up to case,
      spacing and the "singles" fallback. */
  lemma AlbumCompositeEqualIff(artist1: Text, album1: Text, artist2: Text, album2: Text)
    requires SEP !in artist1 && SEP !in artist2
    ensures AlbumComposite(artist1, album1) == AlbumComposite(artist2, album2) <==>
              Words(Lowered(artist1)) == Words(Lowered(artist2)) && FiledUnder(album1) == FiledUnder(album2)
  {
    NormEqualIff(artist1, artist2);
    FiledAlbum(album1);
    FiledAlbum(album2);
    SeparatorSurvives(artist1);
    SeparatorSurvives(artist2);
    if AlbumComposite(artist1, album1) == AlbumComposite(artist2, album2) {
      FirstSeparator(Norm(artist1), Join(FiledUnder(album1)), Norm(artist2), Join(FiledUnder(album2)));
      assert Words(Join(FiledUnder(album1))) == Words(Join(FiledUnder(album2)));
    }
  }

  lemma FiledAlbum(album: Text)
    ensures (if Norm(album) == [] then SINGLES else Norm(album)) == Join(FiledUnder(album))
    ensures Words(Join(FiledUnder(album))) == FiledUnder(album)
  {
    SinglesIsAWord();
    WordsAreWords(Lowered(album));
    NormSplits(album);
    WordsOfJoin(FiledUnder(album));
  }

  lemma LyricsCompositeEqualIff(artist1: Text, title1: Text, artist2: Text, title2: Text)
    requires SEP !in artist1 && SEP !in artist2
    ensures LyricsComposite(artist1, title1) == LyricsComposite(artist2, title2) <==>
              Words(Lowered(artist1)) == Words(Lowered(artist2)) && Words(Lowered(title1)) == Words(Lowered(title2))
  {
    NormEqualIff(artist1, artist2);
    NormEqualIff(title1, title2);
    SeparatorSurvives(artist1);
    SeparatorSurvives(artist2);
    if LyricsComposite(artist1, title1) == LyricsComposite(artist2, title2) {
      FirstSeparator(Norm(artist1), Norm(title1), Norm(artist2), Norm(title2));
    }
  }

  // ---- When a composite has a second reading ----------------------------------------------------

  /** What norm_key can return: lowercase, and every whitespace byte a SPACE between two other bytes. */
  ghost predicate NormForm(s: Text) {
    IsLower(s) && forall i :: 0 <= i < |s| && IsSpace(s[i]) ==> s[i] == SPACE && 0 < i < |s| - 1 && !IsSpace(s[i + 1])
  }

  lemma {:induction false} JoinIsNormForm(ws: seq<Text>)
    requires forall k :: 0 <= k < |ws| ==> IsWord(ws[k])
    ensures NormForm(Join(ws))
    ensures ws != [] ==> Join(ws) != [] && !IsSpace(Join(ws)[0])
  {
    if |ws| > 1 {
      JoinIsNormForm(ws[1..]);
      var w, rest := ws[0], Join(ws[1..]);
      var t := w + [SPACE] + rest;
      assert t[..|w|] == w && t[|w|] == SPACE && t[|w| + 1..] == rest;
      forall i | 0 <= i < |t|
        ensures ToLower(t[i]) == t[i]
        ensures IsSpace(t[i]) ==> t[i] == SPACE && 0 < i < |t| - 1 && !IsSpace(t[i + 1])
      {
        if i > |w| {
          assert t[i] == rest[i - |w| - 1];
        }
      }
    } else if |ws| == 1 {
      assert Join(ws) == ws[0];
    }
  }

  lemma NormIsNormForm(s: Text)
    ensures NormForm(Norm(s))
  {
    WordsAreWords(Lowered(s));
    JoinIsNormForm(Words(Lowered(s)));
  }

  /** A text in normal form normalises to itself. */
  lemma {:induction false} NormOfNormForm(s: Text)
    requires NormForm(s)
    ensures Norm(s) == s
    decreases |s|
  {
    LoweredIsIdentityOn(s);
    if s != [] {
      var n := WordLen(s);
      assert !IsSpace(s[0]);
      if n == |s| {
        WordsOfOneWord(s);
      } else {
        var rest := s[n + 1..];
        assert IsSpace(s[n]) && s == s[..n] + [SPACE] + rest;
        RestIsNormForm(s, n);
        NormOfNormForm(rest);
        LoweredIsIdentityOn(rest);
        WordThenRest(s[..n], rest);
        assert rest != [] && Join(Words(rest)) == rest && Words(rest) != [];
      }
    }
  }

  lemma RestIsNormForm(s: Text, n: nat)
    requires NormForm(s) && n < |s| && s[n] == SPACE
    ensures NormForm(s[n + 1..])
  {
    var rest := s[n + 1..];
    forall i | 0 <= i < |rest|
      ensures rest[i] == s[n + 1 + i]
    {
    }
  }

  /** Position k can be read as the separator between two fields in normal form. */
  predicate FieldBreak(c: Text, k: nat) {
    k < |c| && c[k] == SEP && (k > 0 ==> c[k - 1] != SPACE) && (k + 1 < |c| ==> c[k + 1] != SPACE)
  }

  lemma HalvesAreNormForm(c: Text, k: nat)
    requires NormForm(c) && FieldBreak(c, k)
    ensures NormForm(c[..k]) && NormForm(c[k + 1..])
  {
    var r := c[k + 1..];
    forall i | 0 <= i < |r|
      ensures r[i] == c[k + 1 + i]
    {
    }
  }

  lemma SplitAtBreak(c: Text, k: nat)
    requires NormForm(c) && FieldBreak(c, k)
    ensures Norm(c[..k]) == c[..k] && Norm(c[k + 1..]) == c[k + 1..]
    ensures c[..k] + [SEP] + c[k + 1..] == c
  {
    HalvesAreNormForm(c, k);
    NormOfNormForm(c[..k]);
    NormOfNormForm(c[k + 1..]);
  }

  lemma GlueIsNormForm(l: Text, r: Text)
    requires NormForm(l) && NormForm(r)
    ensures NormForm(l + [SEP] + r) && FieldBreak(l + [SEP] + r, |l|)
  {
    var c := l + [SEP] + r;
    forall i | 0 <= i < |c|
      ensures ToLower(c[i]) == c[i]
      ensures IsSpace(c[i]) ==> c[i] == SPACE && 0 < i < |c| - 1 && !IsSpace(c[i + 1])
    {
      if i > |l| {
        assert c[i] == r[i - |l| - 1];
      }
    }
    assert c[|l|] == SEP && (r != [] ==> c[|l| + 1] == r[0]);
  }

  lemma CompositesAreNormForm(artist: Text, other: Text)
    ensures NormForm(AlbumComposite(artist, other)) && FieldBreak(AlbumComposite(artist, other), |Norm(artist)|)
    ensures NormForm(LyricsComposite(artist, other)) && FieldBreak(LyricsComposite(artist, other), |Norm(artist)|)
  {
    NormIsNormForm(artist);
    NormIsNormForm(other);
    GlueIsNormForm(Norm(artist), SINGLES);
    GlueIsNormForm(Norm(artist), Norm(other));
  }

  lemma PrefixesDecide(l: Text, r: Text, l2: Text, r2: Text)
    requires l + [SEP] + r == l2 + [SEP] + r2
    ensures l == l2 <==> |l| == |l2|
  {
    var c := l + [SEP] + r;
    assert l == c[..|l|];
    assert l2 == c[..|l2|];
  }

  /** The composite is also that of an album by an artist with another normal form. */
  ghost predicate OtherAlbumReading(c: Text, l: Text, artist: Text, album: Text) {
    AlbumComposite(artist, album) == c && Norm(artist) != l
  }

  ghost predicate OtherLyricsReading(c: Text, l: Text, artist: Text, title: Text) {
    LyricsComposite(artist, title) == c && Norm(artist) != l
  }

  /** A field break other than the one at `at`, and one that leaves something to its right. */
  predicate OtherBreak(c: Text, at: nat, k: nat) { k != at && FieldBreak(c, k) }

  predicate InnerBreak(c: Text, at: nat, k: nat) { OtherBreak(c, at, k) && k != |c| - 1 }

  lemma AlbumReadingIsBreak(c: Text, l: Text, r: Text, artist: Text, album: Text)
    requires c == l + [SEP] + r && OtherAlbumReading(c, l, artist, album)
    ensures InnerBreak(c, |l|, |Norm(artist)|)
  {
    CompositesAreNormForm(artist, album);
    PrefixesDecide(l, r, Norm(artist), if Norm(album) == [] then SINGLES else Norm(album));
  }

  lemma BreakIsAlbumReading(c: Text, l: Text, k: nat)
    requires NormForm(c) && InnerBreak(c, |l|, k)
    ensures OtherAlbumReading(c, l, c[..k], c[k + 1..])
  {
    SplitAtBreak(c, k);
    assert c[k + 1..] != [] && |c[..k]| == k;
  }

  lemma AlbumReadingsAreBreaks(c: Text, l: Text, r: Text)
    requires NormForm(c) && c == l + [SEP] + r
    ensures (exists artist, album :: OtherAlbumReading(c, l, artist, album)) <==> exists k :: InnerBreak(c, |l|, k)
  {
    if artist, album :| OtherAlbumReading(c, l, artist, album) {
      AlbumReadingIsBreak(c, l, r, artist, album);
    }
    if k: nat :| InnerBreak(c, |l|, k) {
      BreakIsAlbumReading(c, l, k);
    }
  }

  /** The readings of an album composite are exactly its inner field breaks: an album under another artist shares
      the key if and only if there is a second 0x1F with no space beside it that does not end the text. */
  lemma OtherArtistSharesAlbumKeyIff(artist: Text, album: Text)
    ensures
      var c, l := AlbumComposite(artist, album), Norm(artist);
      (exists artist2, album2 :: OtherAlbumReading(c, l, artist2, album2)) <==> exists k :: InnerBreak(c, |l|, k)
  {
    CompositesAreNormForm(artist, album);
    AlbumReadingsAreBreaks(AlbumComposite(artist, album), Norm(artist),
                           if Norm(album) == [] then SINGLES else Norm(album));
  }

  lemma LyricsReadingIsBreak(c: Text, l: Text, r: Text, artist: Text, title: Text)
    requires c == l + [SEP] + r && OtherLyricsReading(c, l, artist, title)
    ensures OtherBreak(c, |l|, |Norm(artist)|)
  {
    CompositesAreNormForm(artist, title);
    PrefixesDecide(l, r, Norm(artist), Norm(title));
  }

  lemma BreakIsLyricsReading(c: Text, l: Text, k: nat)
    requires NormForm(c) && OtherBreak(c, |l|, k)
    ensures OtherLyricsReading(c, l, c[..k], c[k + 1..])
  {
    SplitAtBreak(c, k);
    assert |c[..k]| == k;
  }

  lemma LyricsReadingsAreBreaks(c: Text, l: Text, r: Text)
    requires NormForm(c) && c == l + [SEP] + r
    ensures (exists artist, title :: OtherLyricsReading(c, l, artist, title)) <==> exists k :: OtherBreak(c, |l|, k)
  {
    if artist, title :| OtherLyricsReading(c, l, artist, title) {
      LyricsReadingIsBreak(c, l, r, artist, title);
    }
    if k: nat :| OtherBreak(c, |l|, k) {
      BreakIsLyricsReading(c, l, k);
    }
  }

  /** Likewise for lyrics, where the title may be empty: there a 0x1F at the very end counts as well. */
  lemma OtherArtistSharesLyricsKeyIff(artist: Text, title: Text)
    ensures
      var c, l := LyricsComposite(artist, title), Norm(artist);
      (exists artist2, title2 :: OtherLyricsReading(c, l, artist2, title2)) <==> exists k :: OtherBreak(c, |l|, k)
  {
    CompositesAreNormForm(artist, title);
    LyricsReadingsAreBreaks(LyricsComposite(artist, title), Norm(artist), Norm(title));
  }

  lemma NormOfWord(w: Text)
    requires IsWord(w)
    ensures Norm(w) == w
  {
    WordsOfOneWord(w);
    LoweredIsIdentityOn(w);
    assert Join([w]) == w;
  }

  /** The simplest such input: an artist of two words joined by a 0x1F. */
  lemma SeparatorInArtistCollides(x: Text, y: Text, z: Text)
    requires IsWord(x) && IsWord(y) && IsWord(z)
    ensures Norm(x) != Norm(x + [SEP] + y)
    ensures AlbumComposite(x + [SEP] + y, z) == AlbumComposite(x, y + [SEP] + z)
  {
    NormOfWord(x);
    NormOfWord(z);
    NormOfWord(x + [SEP] + y);
    NormOfWord(y + [SEP] + z);
    assert x + [SEP] + y + [SEP] + z == x + [SEP] + (y + [SEP] + z);
  }
}
