/** The master playlist of an adaptive HLS package (RFC 8216): the
    `#EXTM3U` tag (section 4.3.1.1), `#EXT-X-VERSION` (section 4.3.1.2) and
    one `#EXT-X-STREAM-INF` tag (section 4.3.4.2) per variant stream, each
    followed by the URI of that variant's media playlist. A bitrate without a
    leading digit yields `BANDWIDTH=NaN`, which section 4.3.4.2 does not
    allow. */
module Manifest {
  import opened Wrappers
  import opened Text

  /** A rendition descriptor: one encoded quality level. `bandwidth` is
      `None` where the source's `parseInt` would give NaN. */
  datatype Variant = Variant(name: string, file: string, bandwidth: Option<nat>, resolution: string)

  const Header: string := "#EXTM3U\n#EXT-X-VERSION:3\n\n"

  /** `${bandwidth}` in a template literal. */
  function BandwidthText(b: Option<nat>): (s: string)
    ensures '\n' !in s && ',' !in s
    ensures b.Some? ==> AllDigits(s)
  {
    match b
    case Some(n) => NatToString(n)
    case None => "NaN"
  }

  /** The tag line that announces one variant. */
  function StreamInf(v: Variant): string {
    "#EXT-X-STREAM-INF:BANDWIDTH=" + BandwidthText(v.bandwidth) + ",RESOLUTION=" + v.resolution
  }

  /** The two lines the serialiser emits per variant. */
  function Entry(v: Variant): string {
    StreamInf(v) + "\n" + v.file + "\n"
  }

  function Entries(vs: seq<Variant>): string {
    if vs == [] then "" else Entry(vs[0]) + Entries(vs[1..])
  }

  /** The whole master playlist for the variants, in the order given. */
  function MasterPlaylist(vs: seq<Variant>): string {
    Header + Entries(vs)
  }

  lemma {:induction false} EntriesAppend(vs: seq<Variant>, v: Variant)
    ensures Entries(vs + [v]) == Entries(vs) + Entry(v)
  {
    if vs == [] {
      assert [v][1..] == [];
      assert vs + [v] == [v];
    } else {
      assert (vs + [v])[1..] == vs[1..] + [v];
      EntriesAppend(vs[1..], v);
    }
  }

  /** Appending a variant appends exactly its two lines to the playlist. */
  lemma MasterPlaylistAppend(vs: seq<Variant>, v: Variant)
    ensures MasterPlaylist(vs + [v]) == MasterPlaylist(vs) + Entry(v)
  {
    EntriesAppend(vs, v);
  }

  /** The two `+=` steps of the serialiser append one entry. */
  lemma EntryAppended(before: string, v: Variant)
    ensures before + StreamInf(v) + "\n" + v.file + "\n" == before + Entry(v)
  {
    var a := StreamInf(v);
    var f := v.file;
    assert Entry(v) == a + "\n" + f + "\n";
  }

  /** `createMasterPlaylist`'s text: the header, then `+=` of each variant's
      two lines in a `forEach`. */
  method ComposeMasterPlaylist(variants: seq<Variant>) returns (content: string)
    ensures content == MasterPlaylist(variants)
  {
    content := Header;
    var i := 0;
    while i < |variants|
      invariant 0 <= i <= |variants|
      invariant content == MasterPlaylist(variants[..i])
    {
      var variant := variants[i];
      MasterPlaylistAppend(variants[..i], variant);
      assert variants[..i + 1] == variants[..i] + [variant];
      ghost var before := content;
      content := content + StreamInf(variant) + "\n";
      content := content + variant.file + "\n";
      EntryAppended(before, variant);
      i := i + 1;
    }
    assert variants[..i] == variants;
  }

  /** `s.split("\n")`: the lines of `s`; a final newline leaves an empty
      last line. */
  function Lines(s: string): (ls: seq<string>)
    ensures |ls| > 0
  {
    if s == [] then [""]
    else if s[0] == '\n' then [""] + Lines(s[1..])
    else
      var rest := Lines(s[1..]);
      [[s[0]] + rest[0]] + rest[1..]
  }

  lemma {:induction false} LinesCons(a: string, b: string)
    requires '\n' !in a
    ensures Lines(a + "\n" + b) == [a] + Lines(b)
  {
    if a == [] {
      assert a + "\n" + b == "\n" + b;
      assert ("\n" + b)[1..] == b;
    } else {
      assert (a + "\n" + b)[1..] == a[1..] + "\n" + b;
      LinesCons(a[1..], b);
      assert [a[0]] + a[1..] == a;
    }
  }

  /** No descriptor field can break a line. */
  predicate SingleLineFields(vs: seq<Variant>) {
    forall i :: 0 <= i < |vs| ==> '\n' !in vs[i].file && '\n' !in vs[i].resolution
  }

  lemma StreamInfIsOneLine(v: Variant)
    requires '\n' !in v.resolution
    ensures '\n' !in StreamInf(v)
  {
    assert '\n' !in "#EXT-X-STREAM-INF:BANDWIDTH=";
    assert '\n' !in ",RESOLUTION=";
  }

  /** One variant's two lines, in front of whatever follows them. */
  lemma LinesOfEntry(v: Variant, rest: string)
    requires '\n' !in v.file && '\n' !in v.resolution
    ensures Lines(Entry(v) + rest) == [StreamInf(v), v.file] + Lines(rest)
  {
    var a := StreamInf(v);
    assert Entry(v) + rest == a + "\n" + v.file + "\n" + rest;
    StreamInfIsOneLine(v);
    LinesOfTwo(a, v.file, rest);
  }

  lemma LinesOfTwo(a: string, b: string, e: string)
    requires '\n' !in a && '\n' !in b
    ensures Lines(a + "\n" + b + "\n" + e) == [a, b] + Lines(e)
  {
    var l1 := b + "\n" + e;
    assert a + "\n" + b + "\n" + e == a + "\n" + l1;
    LinesCons(b, e);
    LinesCons(a, l1);
  }


  /** The lines the variants contribute: per variant its tag line, then
      its playlist file. */
  function EntryLines(vs: seq<Variant>): (ls: seq<string>)
    ensures |ls| == 2 * |vs|
  {
    if vs == [] then [] else [StreamInf(vs[0]), vs[0].file] + EntryLines(vs[1..])
  }

  lemma {:induction false} EntryLinesAt(vs: seq<Variant>)
    ensures forall i :: 0 <= i < |vs| ==>
      EntryLines(vs)[2 * i] == StreamInf(vs[i]) && EntryLines(vs)[2 * i + 1] == vs[i].file
  {
    if vs != [] {
      EntryLinesAt(vs[1..]);
      var ls := EntryLines(vs);
      var lr := EntryLines(vs[1..]);
      forall i | 1 <= i < |vs| ensures ls[2 * i] == StreamInf(vs[i]) && ls[2 * i + 1] == vs[i].file {
        assert vs[1..][i - 1] == vs[i];
        assert ls[2 * i] == lr[2 * (i - 1)];
        assert ls[2 * i + 1] == lr[2 * (i - 1) + 1];
      }
    }
  }

  /** Splitting the serialised entries gives back the entry lines, and the
      empty remainder after the final newline. */
  lemma {:induction false} LinesOfEntries(vs: seq<Variant>)
    requires SingleLineFields(vs)
    ensures Lines(Entries(vs)) == EntryLines(vs) + [""]
  {
    if vs != [] {
      var tail := vs[1..];
      assert SingleLineFields(tail) by {
        forall i | 0 <= i < |tail| ensures '\n' !in tail[i].file && '\n' !in tail[i].resolution {
          assert tail[i] == vs[i + 1];
        }
      }
      LinesOfEntries(tail);
      LinesOfEntry(vs[0], Entries(tail));
    }
  }

  /** The master playlist, read line by line: the two header lines and a
      blank line, then for the i-th variant its `#EXT-X-STREAM-INF` line at
      3 + 2i and its playlist file at 4 + 2i, then the empty remainder after
      the final newline. With no variants only the header remains. */
  lemma MasterPlaylistLines(vs: seq<Variant>)
    requires SingleLineFields(vs)
    ensures Lines(MasterPlaylist(vs)) == ["#EXTM3U", "#EXT-X-VERSION:3", ""] + EntryLines(vs) + [""]
    ensures var ls := Lines(MasterPlaylist(vs));
      && |ls| == 2 * |vs| + 4
      && forall i :: 0 <= i < |vs| ==> ls[2 * i + 3] == StreamInf(vs[i]) && ls[2 * i + 4] == vs[i].file
  {
    HeaderLines(Entries(vs));
    LinesOfEntries(vs);
    EntryLinesAt(vs);
    var el := EntryLines(vs);
    var ls := Lines(MasterPlaylist(vs));
    assert ls == ["#EXTM3U", "#EXT-X-VERSION:3", ""] + (el + [""]);
    forall i | 0 <= i < |vs| ensures ls[2 * i + 3] == StreamInf(vs[i]) && ls[2 * i + 4] == vs[i].file {
      assert ls[2 * i + 3] == el[2 * i];
      assert ls[2 * i + 4] == el[2 * i + 1];
    }
  }

  lemma LinesOfThree(a: string, b: string, c: string, e: string)
    requires '\n' !in a && '\n' !in b && '\n' !in c
    ensures Lines(a + "\n" + b + "\n" + c + "\n" + e) == [a, b, c] + Lines(e)
  {
    var l2 := c + "\n" + e;
    var l1 := b + "\n" + l2;
    assert a + "\n" + b + "\n" + c + "\n" + e == a + "\n" + l1;
    LinesCons(c, e);
    LinesCons(b, l2);
    LinesCons(a, l1);
  }

  lemma HeaderLines(e: string)
    ensures Lines(Header + e) == ["#EXTM3U", "#EXT-X-VERSION:3", ""] + Lines(e)
  {
    var a, b, c := "#EXTM3U", "#EXT-X-VERSION:3", "";
    assert Header == a + "\n" + b + "\n" + c + "\n";
    assert '\n' !in a && '\n' !in b;
    LinesOfThree(a, b, c, e);
  }

}
