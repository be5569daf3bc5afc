/** The three formats of git that the verification route reads: the status list, a tree object, and the output
    of the blob batch. Each parser is proved to undo the way git writes the format. */
module ByteFormats {
  import opened Prelude
  import opened Bytes

  // ---------------------------------------------------------------- the status list

  /** One entry: two status letters, the path, and for a rename or copy the path it came from. */
  datatype Status = Status(xy: Data, path: Data, origin: Option<Data>)

  datatype StatusError = Unrecognised(item: Data) | MissingOrigin(path: Data) | NotAscii(xy: Data)

  predicate Moves(xy: Data) { 82 in xy || 67 in xy }

  predicate WellFormed(e: Status) {
    && |e.xy| == 2 && Ascii(e.xy) && Without(e.xy, NUL)
    && e.path != [] && Without(e.path, NUL)
    && (e.origin.Some? <==> Moves(e.xy))
    && (e.origin.Some? ==> e.origin.value != [] && Without(e.origin.value, NUL))
  }

  function Fields(e: Status): seq<Data> {
    [e.xy + [SPACE] + e.path] + if e.origin.Some? then [e.origin.value] else []
  }

  /** What git writes: every field ends in NUL. */
  function RenderFields(fs: seq<Data>): Data {
    if fs == [] then [] else fs[0] + [NUL] + RenderFields(fs[1..])
  }

  function FieldsOf(es: seq<Status>): seq<Data> {
    if es == [] then [] else Fields(es[0]) + FieldsOf(es[1..])
  }

  function RenderStatus(es: seq<Status>): Data { RenderFields(FieldsOf(es)) }

  /** `raw.split(b"\0")`: the pieces between the separators, so one more than there are separators. */
  function Split(raw: Data): (r: seq<Data>)
    ensures r != [] && forall i | 0 <= i < |r| :: Without(r[i], NUL)
    decreases |raw|
  {
    match Find(raw, NUL)
    case None => [raw]
    case Some(n) => [raw[..n]] + Split(raw[n + 1..])
  }

  /** The head of the pieces as an entry, and how many pieces it takes. */
  function StatusAt(parts: seq<Data>): Result<(Status, nat), StatusError>
    requires parts != []
  {
    var item := parts[0];
    if |item| < 4 || item[2] != SPACE then Err(Unrecognised(item))
    else if !Ascii(item[..2]) then Err(NotAscii(item[..2]))
    else if Moves(item[..2]) then
      if |parts| < 2 || parts[1] == [] then Err(MissingOrigin(item[3..]))
      else Ok((Status(item[..2], item[3..], Some(parts[1])), 2))
    else Ok((Status(item[..2], item[3..], None), 1))
  }

  function StatusesOf(parts: seq<Data>): Result<seq<Status>, StatusError> {
    if parts == [] then Ok([])
    else if parts[0] == [] then StatusesOf(parts[1..])
    else match StatusAt(parts)
         case Err(e) => Err(e)
         case Ok((entry, used)) =>
           match StatusesOf(parts[used..])
           case Err(e) => Err(e)
           case Ok(rest) => Ok([entry] + rest)
  }

  /** `parse_status_z`. */
  method ParseStatusZ(raw: Data) returns (r: Result<seq<Status>, StatusError>)
    ensures r == StatusesOf(Split(raw))
  {
    var parts := Split(raw);
    var entries: seq<Status>, i := [], 0;
    assert parts[0..] == parts;
    AfterNothing(StatusesOf(parts));
    while i < |parts|
      invariant 0 <= i <= |parts|
      invariant StatusesOf(parts) == After(entries, StatusesOf(parts[i..]))
    {
      ghost var now := parts[i..];
      ghost var done := entries;
      var item := parts[i];
      i := i + 1;
      assert parts[i..] == now[1..];
      if item == [] { continue; }
      if |item| < 4 || item[2] != SPACE { return Err(Unrecognised(item)); }
      if !Ascii(item[..2]) { return Err(NotAscii(item[..2])); }
      var xy, path := item[..2], item[3..];
      var origin := None;
      if Moves(xy) {
        if i >= |parts| || parts[i] == [] { return Err(MissingOrigin(path)); }
        origin := Some(parts[i]);
        i := i + 1;
        assert parts[i..] == now[2..];
      }
      entries := entries + [Status(xy, path, origin)];
      AfterOneMore(done, Status(xy, path, origin), StatusesOf(parts[i..]));
    }
    assert parts[|parts|..] == [];
    assert entries + [] == entries;
    return Ok(entries);
  }

  lemma {:induction false} SplitRendered(fs: seq<Data>)
    requires forall i | 0 <= i < |fs| :: Without(fs[i], NUL)
    ensures Split(RenderFields(fs)) == fs + [[]]
  {
    if fs != [] {
      hide Find;
      var rest := RenderFields(fs[1..]);
      var raw := fs[0] + [NUL] + rest;
      FindAfter(fs[0], NUL, rest);
      assert raw[..|fs[0]|] == fs[0] && raw[|fs[0]| + 1..] == rest;
      SplitRendered(fs[1..]);
      assert fs + [[]] == [fs[0]] + (fs[1..] + [[]]);
    }
  }

  lemma OneEntry(e: Status, rest: seq<Data>)
    requires WellFormed(e)
    ensures StatusAt(Fields(e) + rest) == Ok((e, |Fields(e)|)) && (Fields(e) + rest)[|Fields(e)|..] == rest
  {
    var item := e.xy + [SPACE] + e.path;
    assert item[..2] == e.xy && item[3..] == e.path;
    var parts := Fields(e) + rest;
    assert parts[0] == item;
    assert e.origin.Some? ==> parts[1] == e.origin.value;
  }

  lemma {:induction false} FieldsParse(es: seq<Status>, tail: seq<Data>)
    requires forall i | 0 <= i < |es| :: WellFormed(es[i])
    ensures StatusesOf(FieldsOf(es) + tail) == After(es, StatusesOf(tail))
  {
    hide StatusAt; hide WellFormed; hide Fields;
    if es == [] {
      assert FieldsOf(es) + tail == tail;
      AfterNothing(StatusesOf(tail));
    } else {
      var rest := FieldsOf(es[1..]) + tail;
      FieldsParse(es[1..], tail);
      OneEntry(es[0], rest);
      assert FieldsOf(es) + tail == Fields(es[0]) + rest;
      FirstIsNotEmpty(es[0], rest);
      assert es == [es[0]] + es[1..];
      assert StatusesOf(tail).Ok? ==> es + StatusesOf(tail).value == [es[0]] + (es[1..] + StatusesOf(tail).value);
    }
  }

  lemma FirstIsNotEmpty(e: Status, rest: seq<Data>)
    ensures Fields(e) + rest != [] && (Fields(e) + rest)[0] != []
  {
  }

  lemma {:induction false} FieldsAreClean(es: seq<Status>)
    requires forall i | 0 <= i < |es| :: WellFormed(es[i])
    ensures forall i | 0 <= i < |FieldsOf(es)| :: Without(FieldsOf(es)[i], NUL)
  {
    if es != [] { FieldsAreClean(es[1..]); }
  }

  /** Parsing what git writes returns exactly the entries, whatever bytes their paths hold. */
  lemma StatusRoundTrip(es: seq<Status>)
    requires forall i | 0 <= i < |es| :: WellFormed(es[i])
    ensures StatusesOf(Split(RenderStatus(es))) == Ok(es)
  {
    FieldsAreClean(es);
    SplitRendered(FieldsOf(es));
    FieldsParse(es, [[]]);
    var end: seq<Data> := [[]];
    assert end[1..] == [];
    assert es + [] == es;
  }

  /** The other way round: nothing is accepted that is not such a list. Accepted entries are well formed, and
      every piece of the input that is not empty went into exactly one of them, in order. */
  lemma {:induction false} NothingElseParses(parts: seq<Data>)
    requires forall i | 0 <= i < |parts| :: Without(parts[i], NUL)
    requires StatusesOf(parts).Ok?
    ensures var es := StatusesOf(parts).value;
            (forall i | 0 <= i < |es| :: WellFormed(es[i])) && FieldsOf(es) == NonEmpty(parts)
  {
    if parts != [] {
      if parts[0] == [] {
        NothingElseParses(parts[1..]);
      } else {
        var (e, used) := StatusAt(parts).value;
        NothingElseParses(parts[used..]);
        var item := parts[0];
        assert item == item[..2] + [SPACE] + item[3..];
        assert parts[used..] == if used == 1 then parts[1..] else parts[1..][1..];
        var rest := StatusesOf(parts[used..]).value;
        assert ([e] + rest)[1..] == rest;
      }
    }
  }

  function NonEmpty(parts: seq<Data>): seq<Data> {
    if parts == [] then [] else (if parts[0] == [] then [] else [parts[0]]) + NonEmpty(parts[1..])
  }

  // ---------------------------------------------------------------- a tree object

  datatype TreeEntry = TreeEntry(mode: Data, name: Data, oid: Data)

  datatype TreeError = NoSeparator | NotText

  const OID_BYTES := 20

  predicate WellFormedTree(e: TreeEntry, text: Data -> bool) {
    Ascii(e.mode) && Without(e.mode, SPACE) && text(e.name) && Without(e.name, NUL) && |e.oid| == OID_BYTES
  }

  function RenderEntry(e: TreeEntry): Data { e.mode + [SPACE] + e.name + [NUL] + e.oid }

  function RenderTree(es: seq<TreeEntry>): Data {
    if es == [] then [] else RenderEntry(es[0]) + RenderTree(es[1..])
  }

  /** The entry at the head of the data and what follows it. `text` tells which byte strings decode as a name.
      An object name cut short by the end of the data is not noticed. */
  function EntryAt(data: Data, text: Data -> bool): (r: Result<(TreeEntry, Data), TreeError>)
    ensures r.Ok? ==> |r.value.1| < |data|
  {
    match Find(data, SPACE)
    case None => Err(NoSeparator)
    case Some(space) =>
      match Find(data[space..], NUL)
      case None => Err(NoSeparator)
      case Some(n) =>
        var nul := space + n;
        if !Ascii(data[..space]) || !text(data[space + 1..nul]) then Err(NotText)
        else Ok((TreeEntry(data[..space], data[space + 1..nul], Slice(data, nul + 1, nul + 1 + OID_BYTES)),
                 data[Clamp(data, nul + 1 + OID_BYTES)..]))
  }

  function TreeOf(data: Data, text: Data -> bool): Result<seq<TreeEntry>, TreeError>
    decreases |data|
  {
    if data == [] then Ok([])
    else match EntryAt(data, text)
         case Err(e) => Err(e)
         case Ok((entry, rest)) =>
           match TreeOf(rest, text)
           case Err(e) => Err(e)
           case Ok(more) => Ok([entry] + more)
  }

  /** `parse_tree`. */
  method ParseTree(data: Data, text: Data -> bool) returns (r: Result<seq<TreeEntry>, TreeError>)
    ensures r == TreeOf(data, text)
  {
    hide EntryAt; hide Slice; hide Ascii; hide Find;
    var index, entries: seq<TreeEntry> := 0, [];
    assert data[0..] == data;
    AfterNothing(TreeOf(data, text));
    while index < |data|
      invariant 0 <= index
      invariant TreeOf(data, text) == After(entries, TreeOf(data[Clamp(data, index)..], text))
      decreases |data| - index
    {
      ghost var done := entries;
      EntryFrom(data, index, text);
      var space := IndexFrom(data, SPACE, index);
      if space.None? { return Err(NoSeparator); }
      var nul := IndexFrom(data, NUL, space.value);
      if nul.None? { return Err(NoSeparator); }
      var mode, name := data[index..space.value], data[space.value + 1..nul.value];
      var oid := Slice(data, nul.value + 1, nul.value + 21);
      if !Ascii(mode) || !text(name) { return Err(NotText); }
      entries := entries + [TreeEntry(mode, name, oid)];
      index := nul.value + 21;
      AfterOneMore(done, TreeEntry(mode, name, oid), TreeOf(data[Clamp(data, index)..], text));
    }
    assert data[Clamp(data, index)..] == [];
    NothingAfter<TreeEntry, TreeError>(entries);
    return Ok(entries);
  }

  /** The entry at an index of the data, found by searching from there. */
  lemma EntryFrom(data: Data, index: nat, text: Data -> bool)
    requires index < |data|
    ensures EntryAt(data[index..], text) ==
            match IndexFrom(data, SPACE, index)
            case None => Err(NoSeparator)
            case Some(space) =>
              match IndexFrom(data, NUL, space)
              case None => Err(NoSeparator)
              case Some(nul) =>
                if !Ascii(data[index..space]) || !text(data[space + 1..nul]) then Err(NotText)
                else Ok((TreeEntry(data[index..space], data[space + 1..nul], Slice(data, nul + 1, nul + 21)),
                         data[Clamp(data, nul + 21)..]))
  {
    hide Slice; hide Ascii; hide Find; hide Without; hide Clamp; hide IndexFrom;
    var here := data[index..];
    IndexIs(data, SPACE, index);
    if Find(here, SPACE).Some? {
      var space := index + Find(here, SPACE).value;
      assert here[space - index..] == data[space..];
      IndexIs(data, NUL, space);
      if Find(data[space..], NUL).Some? { Shifted(data, index, space, space + Find(data[space..], NUL).value); }
    }
  }

  lemma IndexIs(data: Data, b: Byte, from: nat)
    requires from <= |data|
    ensures IndexFrom(data, b, from) == match Find(data[from..], b) case None => None case Some(n) => Some(from + n)
  {
  }

  lemma Shifted(data: Data, index: nat, space: nat, nul: nat)
    requires index <= space < nul < |data|
    ensures var here := data[index..];
            && here[..space - index] == data[index..space] && here[space - index + 1..nul - index] == data[space + 1..nul]
            && Slice(here, nul - index + 1, nul - index + 1 + OID_BYTES) == Slice(data, nul + 1, nul + 21)
            && here[Clamp(here, nul - index + 1 + OID_BYTES)..] == data[Clamp(data, nul + 21)..]
  {
  }

  lemma EntryRoundTrip(e: TreeEntry, rest: Data, text: Data -> bool)
    requires WellFormedTree(e, text)
    ensures EntryAt(RenderEntry(e) + rest, text) == Ok((e, rest))
  {
    hide Find; hide Slice; hide Clamp; hide RenderEntry; hide Ascii;
    SeparatorsFound(e, rest);
    EntryPieces(e, rest);
  }

  lemma SeparatorsFound(e: TreeEntry, rest: Data)
    requires Without(e.mode, SPACE) && Without(e.name, NUL)
    ensures var data := RenderEntry(e) + rest;
            Find(data, SPACE) == Some(|e.mode|) && |e.mode| <= |data| && Find(data[|e.mode|..], NUL) == Some(1 + |e.name|)
  {
    hide Find;
    var data := RenderEntry(e) + rest;
    assert data == e.mode + [SPACE] + (e.name + [NUL] + e.oid + rest);
    FindAfter(e.mode, SPACE, e.name + [NUL] + e.oid + rest);
    assert data[|e.mode|..] == ([SPACE] + e.name) + [NUL] + (e.oid + rest);
    FindAfter([SPACE] + e.name, NUL, e.oid + rest);
  }

  lemma EntryPieces(e: TreeEntry, rest: Data)
    requires |e.oid| == OID_BYTES
    ensures var data, space, nul := RenderEntry(e) + rest, |e.mode|, |e.mode| + 1 + |e.name|;
            && data[..space] == e.mode && data[space + 1..nul] == e.name
            && Slice(data, nul + 1, nul + 1 + OID_BYTES) == e.oid && data[Clamp(data, nul + 1 + OID_BYTES)..] == rest
  {
    var data, space, nul := RenderEntry(e) + rest, |e.mode|, |e.mode| + 1 + |e.name|;
    assert data[nul + 1..nul + 1 + OID_BYTES] == e.oid;
  }

  /** Parsing a tree object as git writes it returns exactly its entries. */
  lemma {:induction false} TreeRoundTrip(es: seq<TreeEntry>, text: Data -> bool)
    requires forall i | 0 <= i < |es| :: WellFormedTree(es[i], text)
    ensures TreeOf(RenderTree(es), text) == Ok(es)
  {
    if es != [] {
      EntryRoundTrip(es[0], RenderTree(es[1..]), text);
      TreeRoundTrip(es[1..], text);
      assert es == [es[0]] + es[1..];
    }
  }

  lemma EntryIsRendered(data: Data, text: Data -> bool)
    requires EntryAt(data, text).Ok?
    ensures var (e, rest) := EntryAt(data, text).value;
            && data == RenderEntry(e) + rest && |e.oid| <= OID_BYTES
            && WellFormedTree(e.(oid := seq(OID_BYTES, i => NUL)), text)
            && (rest != [] ==> |e.oid| == OID_BYTES)
  {
    hide Slice; hide Clamp; hide Find;
    var (e, rest) := EntryAt(data, text).value;
    var space := Find(data, SPACE).value;
    var nul := space + Find(data[space..], NUL).value;
    SliceAndRest(data, nul + 1, OID_BYTES);
    CutTwice(data, space, nul);
    assert RenderEntry(e) + rest == data[..space] + [data[space]] + data[space + 1..nul] + [data[nul]] + (e.oid + rest);
    assert data[space] == SPACE && data[space..][nul - space] == NUL;
    assert forall i | 0 <= i < |e.name| :: e.name[i] == data[space..][..nul - space][i + 1];
  }

  lemma CutTwice(data: Data, i: nat, j: nat)
    requires i < j < |data|
    ensures data == data[..i] + [data[i]] + data[i + 1..j] + [data[j]] + data[j + 1..]
  {
  }

  /** The other way round, exactly when a tree is read back faithfully: accepted data are the rendering of the
      entries, which are well formed but for the last object name, which may have been cut short. */
  lemma {:induction false} TreeIsExact(data: Data, text: Data -> bool)
    requires TreeOf(data, text).Ok?
    ensures var es := TreeOf(data, text).value;
            && data == RenderTree(es)
            && (forall i | 0 <= i < |es| - 1 :: WellFormedTree(es[i], text))
            && (es != [] ==> var e := es[|es| - 1]; |e.oid| <= OID_BYTES && WellFormedTree(e.(oid := seq(OID_BYTES, i => NUL)), text))
    decreases |data|
  {
    if data != [] {
      hide EntryAt; hide WellFormedTree; hide RenderEntry;
      var (e, rest) := EntryAt(data, text).value;
      EntryIsRendered(data, text);
      TreeIsExact(rest, text);
      WholeEntry(e, text);
      var more := TreeOf(rest, text).value;
      var es := [e] + more;
      assert es[1..] == more && (rest != [] ==> more != []);
      assert es[|es| - 1] == if more == [] then e else more[|more| - 1];
      assert forall i | 0 < i < |es| :: es[i] == more[i - 1];
    }
  }

  lemma WholeEntry(e: TreeEntry, text: Data -> bool)
    requires WellFormedTree(e.(oid := seq(OID_BYTES, i => NUL)), text)
    ensures |e.oid| == OID_BYTES ==> WellFormedTree(e, text)
  {
  }

  // ---------------------------------------------------------------- which data parse

  ghost predicate Renders(data: Data, es: seq<TreeEntry>, text: Data -> bool) {
    data == RenderTree(es) && forall i | 0 <= i < |es| :: WellFormedTree(es[i], text)
  }

  ghost predicate IsRendering(data: Data, text: Data -> bool) { exists es :: Renders(data, es, text) }

  /** The data are what is left of a rendering when `cut` is taken off its end, from the last object name only. */
  ghost predicate IsCut(data: Data, es: seq<TreeEntry>, cut: Data, text: Data -> bool) {
    |cut| <= OID_BYTES && Renders(data + cut, es, text)
  }

  /** Exactly what the parser accepts: renderings of well-formed entries, and such renderings cut short at the end
      by one to twenty bytes, which are not renderings themselves. Nothing in the parser tells the two apart. */
  lemma TreeIff(data: Data, text: Data -> bool)
    ensures TreeOf(data, text).Ok? <==> exists es, cut :: IsCut(data, es, cut, text)
    ensures TreeOf(data, text).Ok? && !IsRendering(data, text) <==> exists es, cut :: IsCut(data, es, cut, text) && cut != []
  {
    hide TreeOf; hide IsRendering; hide IsCut;
    WholeIff(data, text);
    if TreeOf(data, text).Ok? {
      AcceptedIsCut(data, text);
      var es, cut :| IsCut(data, es, cut, text) && (cut == [] ==> IsRendering(data, text));
    }
    forall es, cut | IsCut(data, es, cut, text)
      ensures TreeOf(data, text).Ok? && (cut != [] ==> !IsRendering(data, text))
    {
      CutParses(data, es, cut, text);
    }
  }

  /** A cut rendering parses to its entries with the last object name cut; so it is not a rendering itself. */
  lemma {:induction false} CutParses(data: Data, es: seq<TreeEntry>, cut: Data, text: Data -> bool)
    requires IsCut(data, es, cut, text)
    ensures TreeOf(data, text) == Ok(Shortened(es, |cut|))
    ensures cut != [] ==> data != [] && |Last(Shortened(es, |cut|))| < OID_BYTES && !IsRendering(data, text)
    decreases |es|
  {
    hide TreeOf; hide EntryAt; hide WellFormedTree; hide RenderEntry; hide IsRendering; hide Shortened; hide Last;
    if es == [] {
      assert data + cut == [];
      assert data == [] && cut == [];
      EmptyTree(text);
      ShortenedEnd(es, cut, text);
    } else {
      if |es| == 1 {
        assert es == [es[0]];
        OneCut(es[0], data, cut, text);
      } else {
        var e, rest := es[0], RenderTree(es[1..]);
        EntriesAreLong(es[1..], text);
        CutOff(RenderEntry(e), rest, data, cut);
        CutParses(data[|RenderEntry(e)|..], es[1..], cut, text);
        OneMoreEntry(data, es, cut, text);
      }
      ShortenedEnd(es, cut, text);
      WholeIff(data, text);
    }
  }

  lemma OneCut(e: TreeEntry, data: Data, cut: Data, text: Data -> bool)
    requires IsCut(data, [e], cut, text)
    ensures TreeOf(data, text) == Ok(Shortened([e], |cut|)) && data != []
  {
    hide EntryAt; hide RenderEntry;
    assert RenderTree([]) == [] && [e][1..] == [];
    assert data + cut == RenderEntry(e) + [] == RenderEntry(e);
    assert WellFormedTree([e][0], text);
    ShortEntry(e, data, cut, text);
    assert TreeOf([], text) == Ok([]);
    assert [e.(oid := e.oid[..OID_BYTES - |cut|])] + [] == Shortened([e], |cut|);
  }

  lemma OneMoreEntry(data: Data, es: seq<TreeEntry>, cut: Data, text: Data -> bool)
    requires |es| > 1 && WellFormedTree(es[0], text) && |RenderEntry(es[0])| <= |data|
    requires data == RenderEntry(es[0]) + data[|RenderEntry(es[0])|..]
    requires TreeOf(data[|RenderEntry(es[0])|..], text) == Ok(Shortened(es[1..], |cut|))
    ensures TreeOf(data, text) == Ok(Shortened(es, |cut|)) && data != []
  {
    hide TreeOf; hide EntryAt; hide WellFormedTree; hide Shortened; hide RenderEntry;
    var tail := data[|RenderEntry(es[0])|..];
    EntryRoundTrip(es[0], tail, text);
    TreeStep(data, es[0], tail, text);
    ShortenedCons(es, |cut|);
  }

  lemma TreeStep(data: Data, e: TreeEntry, tail: Data, text: Data -> bool)
    requires EntryAt(data, text) == Ok((e, tail)) && TreeOf(tail, text).Ok?
    ensures data != [] && TreeOf(data, text) == Ok([e] + TreeOf(tail, text).value)
  {
    hide EntryAt;
  }

  lemma ShortenedCons(es: seq<TreeEntry>, n: nat)
    requires |es| > 1
    ensures Shortened(es, n) == [es[0]] + Shortened(es[1..], n)
  {
    assert es[..|es| - 1] == [es[0]] + es[1..][..|es| - 2];
  }

  lemma ShortenedEnd(es: seq<TreeEntry>, cut: Data, text: Data -> bool)
    requires |cut| <= OID_BYTES && forall i | 0 <= i < |es| :: WellFormedTree(es[i], text)
    ensures es == [] ==> Shortened(es, |cut|) == []
    ensures es != [] ==> |Last(Shortened(es, |cut|))| == OID_BYTES - |cut|
  {
  }

  function Shortened(es: seq<TreeEntry>, n: nat): seq<TreeEntry> {
    if es == [] || |es[|es| - 1].oid| < n then es
    else
      var last := es[|es| - 1];
      es[..|es| - 1] + [last.(oid := last.oid[..|last.oid| - n])]
  }

  lemma EntriesAreLong(es: seq<TreeEntry>, text: Data -> bool)
    requires es != [] && WellFormedTree(es[0], text)
    ensures |RenderTree(es)| > OID_BYTES
  {
  }

  lemma CutOff(head: Data, rest: Data, data: Data, cut: Data)
    requires head + rest == data + cut && |cut| <= |rest|
    ensures |head| <= |data| && data == head + data[|head|..] && rest == data[|head|..] + cut
  {
    assert data == (head + rest)[..|data|];
    assert rest == (data + cut)[|head|..];
  }

  lemma ShortEntry(e: TreeEntry, data: Data, cut: Data, text: Data -> bool)
    requires WellFormedTree(e, text) && |cut| <= OID_BYTES && RenderEntry(e) == data + cut
    ensures EntryAt(data, text) == Ok((e.(oid := e.oid[..OID_BYTES - |cut|]), [])) && data != []
  {
    hide Find; hide Ascii; hide Slice; hide Clamp; hide Without;
    var f := e.(oid := e.oid[..OID_BYTES - |cut|]);
    assert data == RenderEntry(f) by {
      assert data == RenderEntry(e)[..|data|];
      assert e.oid == f.oid + e.oid[OID_BYTES - |cut|..];
    }
    assert RenderEntry(f) + [] == RenderEntry(f);
    SeparatorsFound(f, []);
    ShortPieces(f);
  }

  lemma ShortPieces(e: TreeEntry)
    requires |e.oid| <= OID_BYTES
    ensures var data, space, nul := RenderEntry(e), |e.mode|, |e.mode| + 1 + |e.name|;
            && data[..space] == e.mode && data[space + 1..nul] == e.name
            && Slice(data, nul + 1, nul + 1 + OID_BYTES) == e.oid && data[Clamp(data, nul + 1 + OID_BYTES)..] == []
  {
  }

  /** Whatever parses is a rendering, or becomes one when the last object name is filled up. */
  lemma AcceptedIsCut(data: Data, text: Data -> bool)
    requires TreeOf(data, text).Ok?
    ensures exists es, cut :: IsCut(data, es, cut, text) && (cut == [] ==> IsRendering(data, text))
  {
    hide TreeOf; hide WellFormedTree;
    TreeIsExact(data, text);
    var es := TreeOf(data, text).value;
    assert data + [] == data;
    if es == [] {
      assert Renders(data, es, text) && IsCut(data, es, [], text);
    } else {
      var e := es[|es| - 1];
      var fill: Data := seq(OID_BYTES - |e.oid|, i => NUL);
      var full := es[..|es| - 1] + [e.(oid := e.oid + fill)];
      FilledUp(e, fill, text);
      RenderLast(es, fill);
      assert Renders(data + fill, full, text) && IsCut(data, full, fill, text);
    }
  }

  lemma FilledUp(e: TreeEntry, fill: Data, text: Data -> bool)
    requires WellFormedTree(e.(oid := seq(OID_BYTES, i => NUL)), text) && |e.oid| + |fill| == OID_BYTES
    ensures WellFormedTree(e.(oid := e.oid + fill), text)
  {
  }

  lemma {:induction false} RenderLast(es: seq<TreeEntry>, fill: Data)
    requires es != []
    ensures var e := es[|es| - 1];
            RenderTree(es[..|es| - 1] + [e.(oid := e.oid + fill)]) == RenderTree(es) + fill
  {
    var e := es[|es| - 1];
    var full := es[..|es| - 1] + [e.(oid := e.oid + fill)];
    if |es| > 1 {
      RenderLast(es[1..], fill);
      assert full[1..] == es[1..][..|es| - 2] + [e.(oid := e.oid + fill)];
      assert RenderTree(full) == RenderEntry(es[0]) + (RenderTree(es[1..]) + fill);
    } else {
      assert full[1..] == [] && es[1..] == [];
      assert RenderTree(full) == RenderEntry(e) + fill;
    }
  }

  /** Data are a whole rendering if and only if they parse with a last object name of full length. */
  lemma WholeIff(data: Data, text: Data -> bool)
    ensures IsRendering(data, text)
            <==> TreeOf(data, text).Ok? && (data != [] ==> |Last(TreeOf(data, text).value)| == OID_BYTES)
  {
    hide RenderTree; hide TreeOf; hide WellFormedTree;
    EmptyTree(text);
    if TreeOf(data, text).Ok? && (data != [] ==> |Last(TreeOf(data, text).value)| == OID_BYTES) {
      WholeTree(data, text);
      assert Renders(data, TreeOf(data, text).value, text);
    }
    forall es | Renders(data, es, text)
      ensures TreeOf(data, text) == Ok(es) && (data != [] ==> |Last(es)| == OID_BYTES)
    {
      TreeRoundTrip(es, text);
      LastIsWhole(es, text);
    }
  }

  lemma EmptyTree(text: Data -> bool)
    ensures RenderTree([]) == [] && TreeOf([], text) == Ok([])
  {
  }

  lemma LastIsWhole(es: seq<TreeEntry>, text: Data -> bool)
    requires es != [] ==> WellFormedTree(es[|es| - 1], text)
    ensures es != [] ==> |Last(es)| == OID_BYTES
  {
  }

  lemma WholeTree(data: Data, text: Data -> bool)
    requires TreeOf(data, text).Ok? && (data != [] ==> |Last(TreeOf(data, text).value)| == OID_BYTES)
    ensures var es := TreeOf(data, text).value; data == RenderTree(es) && forall i | 0 <= i < |es| :: WellFormedTree(es[i], text)
  {
    hide RenderTree; hide TreeOf;
    TreeIsExact(data, text);
    EmptyTree(text);
    var es := TreeOf(data, text).value;
    if es != [] {
      var e := es[|es| - 1];
      assert Last(es) == e.oid;
    }
  }

  function Last(es: seq<TreeEntry>): Data { if es == [] then [] else es[|es| - 1].oid }

  /** A truncated object is accepted. The hash checked before parsing binds the data to the requested name; it does
      not tell a tree from a cut one that was stored and named as such. */
  lemma TruncatedTreeParses(text: Data -> bool)
    requires text([97])
    ensures TreeOf([49, SPACE, 97, NUL, 7], text) == Ok([TreeEntry([49], [97], [7])])
  {
    var data: Data := [49, SPACE, 97, NUL, 7];
    FindAfter([49], SPACE, [97, NUL, 7]);
    assert data == [49] + [SPACE] + [97, NUL, 7];
    assert data[1..] == [SPACE, 97] + [NUL] + [7];
    FindAfter([SPACE, 97], NUL, [7]);
    assert data[..1] == [49] && data[2..3] == [97] && data[4..5] == [7];
    assert EntryAt(data, text) == Ok((TreeEntry([49], [97], [7]), []));
    assert TreeOf([], text) == Ok([]);
    assert [TreeEntry([49], [97], [7])] + [] == [TreeEntry([49], [97], [7])];
  }
}
