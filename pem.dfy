/**
 * parseKeyFromPEM (utils.go): walk the blocks of a PEM file and return the
 * key of the first block whose type is one of the wanted kind. pem.Decode
 * and the x509 parsers are abstract: the file is given as the sequence of
 * blocks and stray text pem.Decode would meet, and the parser is a
 * parameter.
 */
module Pem {
  import opened Wrappers
  import opened Text

  /** A PEM block (type and DER bytes), or text that belongs to no block. */
  datatype Chunk = Block(blockType: string, der: seq<byte>) | Junk

  /** A parsed key, opaque to the service. */
  datatype Key = Key(algorithm: string, material: seq<byte>)

  datatype PemError =
    | ReadFailed                    // the file could not be read
    | UndecodableBlock              // "Failed to parse PEM block"
    | KeyParseFailed(reason: string) // the x509 parser's error
    | NoKeyBlock(kind: string)      // "Couldn't find key '<kind>' block in PEM file"

  /** The block types that carry a key of the wanted kind. */
  predicate Wanted(private: bool, blockType: string)
  {
    if private then blockType == "PRIVATE KEY" || blockType == "EC PRIVATE KEY" || blockType == "RSA PRIVATE KEY"
    else blockType == "PUBLIC KEY" || blockType == "RSA PUBLIC KEY"
  }

  predicate IsWanted(c: Chunk, private: bool)
  {
    c.Block? && Wanted(private, c.blockType)
  }

  function KindName(private: bool): string
  {
    if private then "PRIVATE KEY" else "PUBLIC KEY"
  }

  /** The position of the first block, skipping stray text. */
  function FirstBlock(s: seq<Chunk>): (r: Option<nat>)
    ensures r.Some? ==> r.value < |s| && s[r.value].Block? && forall k :: 0 <= k < r.value ==> s[k].Junk?
    ensures r.None? ==> forall k :: 0 <= k < |s| ==> s[k].Junk?
  {
    if s == [] then None
    else if s[0].Block? then Some(0)
    else match FirstBlock(s[1..])
      case None => None
      case Some(j) => Some(j + 1)
  }

  /** pem.Decode: the next block and what follows it, or None when no block is left. */
  function Decode(rest: seq<Chunk>): Option<(Chunk, seq<Chunk>)>
  {
    match FirstBlock(rest)
    case None => None
    case Some(j) => Some((rest[j], rest[j + 1..]))
  }

  /** The position of the first block of the wanted kind. */
  function FirstWanted(s: seq<Chunk>, private: bool): (r: Option<nat>)
    ensures r.Some? ==> r.value < |s| && IsWanted(s[r.value], private)
    ensures r.Some? ==> forall k :: 0 <= k < r.value ==> !IsWanted(s[k], private)
    ensures r.None? ==> forall k :: 0 <= k < |s| ==> !IsWanted(s[k], private)
  {
    if s == [] then None
    else if IsWanted(s[0], private) then Some(0)
    else match FirstWanted(s[1..], private)
      case None => None
      case Some(j) => Some(j + 1)
  }

  /**
   * The result of reading a key from a PEM file, stated without the loop:
   * the first wanted block decides (its key or its parse error); with no
   * wanted block, stray text at the end is a decode error, otherwise the
   * error names the kind that was looked for.
   */
  function SelectKey(file: Option<seq<Chunk>>, private: bool,
                     parse: (string, seq<byte>) -> Result<Key, string>): Result<Key, PemError>
  {
    match file
    case None => Err(ReadFailed)
    case Some(s) =>
      match FirstWanted(s, private)
      case Some(i) =>
        (match parse(s[i].blockType, s[i].der)
         case Ok(k) => Ok(k)
         case Err(e) => Err(KeyParseFailed(e)))
      case None =>
        if |s| > 0 && s[|s| - 1].Junk? then Err(UndecodableBlock) else Err(NoKeyBlock(KindName(private)))
  }

  /** The chunks before pos hold no wanted block, and from pos on there is no block at all. */
  lemma {:induction false} NoBlockLeft(contents: seq<Chunk>, pos: nat, private: bool,
                                       parse: (string, seq<byte>) -> Result<Key, string>)
    requires pos < |contents|
    requires forall k :: 0 <= k < pos ==> !IsWanted(contents[k], private)
    requires FirstBlock(contents[pos..]).None?
    ensures SelectKey(Some(contents), private, parse) == Err(UndecodableBlock)
  {
    assert forall k :: pos <= k < |contents| ==> contents[k] == contents[pos..][k - pos];
    assert FirstWanted(contents, private).None?;
  }

  /** The next block after pos is the first wanted one of the whole file. */
  lemma {:induction false} NextBlockIsFirstWanted(contents: seq<Chunk>, pos: nat, j: nat, private: bool)
    requires pos <= |contents| && FirstBlock(contents[pos..]) == Some(j)
    requires forall k :: 0 <= k < pos ==> !IsWanted(contents[k], private)
    requires IsWanted(contents[pos + j], private)
    ensures FirstWanted(contents, private) == Some(pos + j)
  {
    assert forall k :: pos <= k < pos + j ==> contents[k] == contents[pos..][k - pos];
  }

  /** Skipping the next block keeps "no wanted block so far". */
  lemma {:induction false} SkipNextBlock(contents: seq<Chunk>, pos: nat, j: nat, private: bool)
    requires pos <= |contents| && FirstBlock(contents[pos..]) == Some(j)
    requires forall k :: 0 <= k < pos ==> !IsWanted(contents[k], private)
    requires !IsWanted(contents[pos + j], private)
    ensures forall k :: 0 <= k < pos + j + 1 ==> !IsWanted(contents[k], private)
    ensures contents[pos + j].Block? && contents[pos..][j + 1..] == contents[pos + j + 1..]
  {
    assert forall k :: pos <= k < pos + j ==> contents[k] == contents[pos..][k - pos];
  }

  /**
   * parseKeyFromPEM: decode block after block; a wanted block is parsed and
   * its outcome returned; any other block is skipped.
   */
  method ParseKeyFromPem(file: Option<seq<Chunk>>, private: bool,
                         parse: (string, seq<byte>) -> Result<Key, string>)
    returns (r: Result<Key, PemError>)
    ensures r == SelectKey(file, private, parse)
  {
    if file.None? {
      return Err(ReadFailed);
    }
    var contents := file.value;
    var next := contents;
    ghost var pos := 0;
    while |next| > 0
      invariant 0 <= pos <= |contents| && next == contents[pos..]
      invariant forall k :: 0 <= k < pos ==> !IsWanted(contents[k], private)
      invariant pos > 0 ==> contents[pos - 1].Block?
      decreases |next|
    {
      var decoded := Decode(next);
      if decoded.None? {
        NoBlockLeft(contents, pos, private, parse);
        return Err(UndecodableBlock);
      }
      ghost var j := FirstBlock(next).value;
      var block := decoded.value.0;
      var rest := decoded.value.1;
      if Wanted(private, block.blockType) {
        NextBlockIsFirstWanted(contents, pos, j, private);
        var parsed := parse(block.blockType, block.der);
        if parsed.Err? {
          return Err(KeyParseFailed(parsed.error));
        }
        return Ok(parsed.value);
      }
      SkipNextBlock(contents, pos, j, private);
      pos := pos + j + 1;
      next := rest;
    }
    assert FirstWanted(contents, private).None?;
    r := Err(NoKeyBlock(KindName(private)));
  }

  /** A block of another kind in front of the file changes nothing. */
  lemma {:induction false} UnwantedBlockSkipped(t: string, der: seq<byte>, s: seq<Chunk>, private: bool,
                                                parse: (string, seq<byte>) -> Result<Key, string>)
    requires !Wanted(private, t)
    ensures SelectKey(Some([Block(t, der)] + s), private, parse) == SelectKey(Some(s), private, parse)
  {
    var s' := [Block(t, der)] + s;
    assert s'[1..] == s;
    assert !IsWanted(s'[0], private);
    match FirstWanted(s, private)
    case Some(i) => assert FirstWanted(s', private) == Some(i + 1);
    case None => assert FirstWanted(s', private).None?;
  }

  /**
   * The first block of the wanted kind decides, whatever follows it: the
   * parser's key, or its error.
   */
  lemma {:induction false} FirstWantedBlockDecides(prefix: seq<Chunk>, t: string, der: seq<byte>, suffix: seq<Chunk>,
                                                   private: bool, parse: (string, seq<byte>) -> Result<Key, string>)
    requires forall k :: 0 <= k < |prefix| ==> !IsWanted(prefix[k], private)
    requires Wanted(private, t)
    ensures var r := SelectKey(Some(prefix + [Block(t, der)] + suffix), private, parse);
      && (parse(t, der).Ok? ==> r == Ok(parse(t, der).value))
      && (parse(t, der).Err? ==> r == Err(KeyParseFailed(parse(t, der).error)))
  {
    var s := prefix + [Block(t, der)] + suffix;
    assert s[|prefix|] == Block(t, der);
    assert forall k :: 0 <= k < |prefix| ==> s[k] == prefix[k];
    assert FirstWanted(s, private) == Some(|prefix|);
  }

  /** A file without a block of the wanted kind yields an error, never a key; an empty file names the kind. */
  lemma NoWantedBlockNoKey(s: seq<Chunk>, private: bool, parse: (string, seq<byte>) -> Result<Key, string>)
    requires forall k :: 0 <= k < |s| ==> !IsWanted(s[k], private)
    ensures SelectKey(Some(s), private, parse).Err?
    ensures s == [] ==> SelectKey(Some(s), private, parse) == Err(NoKeyBlock(KindName(private)))
    ensures |s| > 0 && s[|s| - 1].Block? ==> SelectKey(Some(s), private, parse) == Err(NoKeyBlock(KindName(private)))
  {
    assert FirstWanted(s, private).None?;
  }
}
