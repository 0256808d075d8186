/** The codec as the pager calls it: its keys and flags, and what each mode of a call does to a page. */
module CodecRekey {
  import opened BlockHash
  import opened CodecChain
  import opened CodecPage

  // ---------------------------------------------------------------- sqlite3Codec

  /** What a codec knows: whether the database is encrypted, and which keys read and write it. */
  datatype KeyState = KeyState(isEncrypted: bool, hasReadKey: bool, hasWriteKey: bool,
                               readKey: seq<bv8>, writeKey: seq<bv8>)

  /** A page as it is in memory, from what the file or the journal holds (modes 0, 2 and 3). */
  function Loaded(k: KeyState, page: nat, raw: seq<bv8>): (s: seq<bv8>)
    ensures |s| == |raw|
  {
    if k.isEncrypted && k.hasReadKey && |raw| >= 32 then DecryptedPage(k.readKey, page, raw) else raw
  }

  /** A page as the file gets it (mode 6). */
  function ForFile(k: KeyState, page: nat, s: seq<bv8>): (raw: seq<bv8>)
    ensures |s| == |raw|
  {
    if k.isEncrypted && k.hasWriteKey && |s| >= 32 then EncryptedPage(k.writeKey, page, s) else s
  }

  /** A page as the journal gets it (mode 7): always under the key it was read with. */
  function ForJournal(k: KeyState, page: nat, s: seq<bv8>): (raw: seq<bv8>)
    ensures |s| == |raw|
  {
    if k.isEncrypted && k.hasReadKey && |s| >= 32 then EncryptedPage(k.readKey, page, s) else s
  }

  /** A page that survives encryption: any but the first, and a first one with a database header. */
  predicate Readable(page: nat, s: seq<bv8>) {
    |s| >= 32 && (page == 1 ==> HeaderTest(s[16..24]) && s[..16] == FILE_HEADER)
  }

  lemma ReadableComesBack(key: seq<bv8>, page: nat, s: seq<bv8>)
    requires Readable(page, s)
    ensures DecryptedPage(key, page, EncryptedPage(key, page, s)) == s
  {
    hide EncryptedPage, DecryptedPage, HeaderTest;
    if page == 1 {
      PageOneComesBack(key, s);
    } else {
      PageComesBack(key, page, s);
    }
  }

  /** What is read with the key that wrote it comes back. */
  lemma JournalComesBack(k: KeyState, page: nat, s: seq<bv8>)
    requires Readable(page, s)
    ensures Loaded(k, page, ForJournal(k, page, s)) == s
  {
    hide EncryptedPage, DecryptedPage, HeaderTest;
    ReadableComesBack(k.readKey, page, s);
  }

  /** The bytes that the file and the journal get are chained under the key that is in use, and those loaded are what
      the chain holds; without one nothing changes. */
  lemma PagesAreChained(k: KeyState, page: nat, s: seq<bv8>)
    requires |s| >= 32
    ensures if k.isEncrypted && k.hasWriteKey then PageChained(k.writeKey, page, s, ForFile(k, page, s))
            else ForFile(k, page, s) == s
    ensures if k.isEncrypted && k.hasReadKey then PageChained(k.readKey, page, s, ForJournal(k, page, s))
            else ForJournal(k, page, s) == s
    ensures if k.isEncrypted && k.hasReadKey then PageUnchained(k.readKey, page, s, Loaded(k, page, s))
            else Loaded(k, page, s) == s
  {
    hide EncryptedPage, DecryptedPage, PageChained, PageUnchained;
    EncryptedIsChained(k.writeKey, page, s);
    EncryptedIsChained(k.readKey, page, s);
    DecryptedIsUnchained(k.readKey, page, s);
  }

  const MODE_UNDO := 0
  const MODE_RELOAD := 2
  const MODE_LOAD := 3
  const MODE_FILE := 6
  const MODE_JOURNAL := 7

  /** The codec object: keys, flags and the buffer that takes encrypted copies. */
  class PagerCodec {
    var isEncrypted: bool
    var hasReadKey: bool
    var hasWriteKey: bool
    const codec: Codec
    const pageBuffer: array<bv8>

    ghost predicate Valid()
      reads this, codec, codec.aes, codec.aes.core, codec.aes.core.expandedKey
    {
      codec.Valid() && codec.aes.Apart(pageBuffer)
    }

    ghost function State(): KeyState
      reads this, codec
    {
      KeyState(isEncrypted, hasReadKey, hasWriteKey, codec.readKey, codec.writeKey)
    }

    constructor (pageSize: nat)
      ensures Valid() && fresh(codec) && fresh(codec.aes) && fresh(codec.aes.core)
      ensures fresh(codec.aes.core.expandedKey) && fresh(pageBuffer)
      ensures pageBuffer.Length == pageSize && !isEncrypted && !hasReadKey && !hasWriteKey
    {
      isEncrypted, hasReadKey, hasWriteKey := false, false, false;
      codec := new Codec(Zeros(16), Zeros(16));
      pageBuffer := new bv8[pageSize](_ => 0);
    }

    /**
     * sqlite3Codec: decoding is done in the caller's page, encoding in the codec's own buffer, so that the
     * caller's page never changes.
     */
    method Call(data: array<bv8>, page: nat, mode: int) returns (r: array<bv8>)
      requires Valid() && data.Length == pageBuffer.Length >= 32 && data != pageBuffer
      requires codec.aes.Apart(data) && page + 1 < 0x8000_0000
      modifies data, pageBuffer, codec.aes, codec.aes.core, codec.aes.core.expandedKey
      ensures Valid() && (r == data || r == pageBuffer)
      ensures mode == MODE_UNDO || mode == MODE_RELOAD || mode == MODE_LOAD ==>
                r == data && data[..] == Loaded(State(), page, old(data[..]))
      ensures mode == MODE_FILE ==> data[..] == old(data[..]) && r[..] == ForFile(State(), page, data[..])
      ensures mode !in {MODE_UNDO, MODE_RELOAD, MODE_LOAD, MODE_FILE, MODE_JOURNAL} ==>
                r == data && data[..] == old(data[..])
      ensures mode == MODE_JOURNAL ==> data[..] == old(data[..]) && r[..] == ForJournal(State(), page, data[..])
    {
      hide EncryptedPage, DecryptedPage, PageChained, PageUnchained, Modes.Context.Valid;
      r := data;
      if !isEncrypted {
        return;
      }
      if mode == MODE_UNDO || mode == MODE_RELOAD || mode == MODE_LOAD {
        if hasReadKey {
          codec.Decrypt(page, data);
        }
      } else if mode == MODE_FILE {
        if hasWriteKey {
          CopyInto(pageBuffer, 0, data[..]);
          assert pageBuffer[..] == data[..];
          r := pageBuffer;
          codec.Encrypt(page, r, true);
        }
      } else if mode == MODE_JOURNAL {
        if hasReadKey {
          CopyInto(pageBuffer, 0, data[..]);
          assert pageBuffer[..] == data[..];
          r := pageBuffer;
          codec.Encrypt(page, r, false);
        }
      }
    }
  }
}
