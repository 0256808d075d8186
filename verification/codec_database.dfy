/** Changing the key of a database: every page is rewritten in one transaction of the pager. */
module CodecDatabase {
  import opened Basics
  import opened CodecChain
  import opened CodecRekey

  const OK := 0

  /** A pager without a codec behaves as one whose codec says that nothing is encrypted. */
  const PLAIN := KeyState(false, false, false, [], [])

  /** Between transactions: nothing encrypted, or the same key to read and to write. */
  predicate Settled(k: KeyState) {
    k.isEncrypted ==> k.hasReadKey && k.hasWriteKey && k.readKey == k.writeKey
  }

  /** The file, read with these keys, has this content; page skip, which holds the locks, is never read. */
  ghost predicate Holds(file: map<nat, seq<bv8>>, k: KeyState, skip: nat, content: map<nat, seq<bv8>>) {
    && file.Keys == content.Keys
    && forall n :: n in file && n != skip ==> Loaded(k, n, file[n]) == content[n]
  }

  /** The file was written with the key that reads it. */
  ghost predicate Written(file: map<nat, seq<bv8>>, k: KeyState, skip: nat, content: map<nat, seq<bv8>>) {
    && file.Keys == content.Keys
    && forall n :: n in file && n != skip ==> Readable(n, content[n]) && file[n] == ForJournal(k, n, content[n])
  }

  /** The bytes in the file: chained under the key if there is one, else the content itself. */
  ghost predicate Stored(file: map<nat, seq<bv8>>, key: Option<seq<bv8>>, skip: nat, content: map<nat, seq<bv8>>) {
    && file.Keys == content.Keys
    && forall n :: n in file && n != skip ==>
         if key.Some? then PageChained(key.value, n, content[n], file[n]) else file[n] == content[n]
  }

  lemma WrittenIsStored(file: map<nat, seq<bv8>>, k: KeyState, skip: nat, content: map<nat, seq<bv8>>)
    requires Written(file, k, skip, content) && Settled(k)
    ensures Stored(file, if k.isEncrypted then Some(k.readKey) else None, skip, content)
  {
    hide ForJournal, PageChained, Loaded, ForFile;
    forall n | n in file && n != skip
      ensures if k.isEncrypted then PageChained(k.readKey, n, content[n], file[n]) else file[n] == content[n]
    {
      PagesAreChained(k, n, content[n]);
    }
  }

  lemma WrittenHolds(file: map<nat, seq<bv8>>, k: KeyState, skip: nat, content: map<nat, seq<bv8>>)
    requires Written(file, k, skip, content)
    ensures Holds(file, k, skip, content)
  {
    hide Readable, Loaded, ForJournal;
    forall n | n in file && n != skip
      ensures Loaded(k, n, file[n]) == content[n]
    {
      JournalComesBack(k, n, content[n]);
    }
  }

  /** What the calls of the pager answer: to begin the transaction, to get a page, to prepare it for writing, and to
      commit; 0 where they succeed. */
  datatype Answers = Answers(begin: int, get: nat -> int, write: nat -> int, commit: int)

  /** The first error among the calls for the pages from n on, or 0. */
  function FirstError(answers: Answers, n: nat, pageCount: nat, skip: nat): int
    decreases pageCount + 1 - n
  {
    if n > pageCount then OK
    else if n != skip && answers.get(n) != OK then answers.get(n)
    else if n != skip && answers.write(n) != OK then answers.write(n)
    else FirstError(answers, n + 1, pageCount, skip)
  }

  /** All pages can be rewritten if no call for any of them fails. */
  lemma {:induction false} NoErrorIfNoneFails(answers: Answers, n: nat, pageCount: nat, skip: nat)
    ensures FirstError(answers, n, pageCount, skip) == OK
       <==> forall m :: n <= m <= pageCount && m != skip ==> answers.get(m) == OK && answers.write(m) == OK
    decreases pageCount + 1 - n
  {
    if n <= pageCount {
      NoErrorIfNoneFails(answers, n + 1, pageCount, skip);
      if FirstError(answers, n, pageCount, skip) == OK {
        forall m | n <= m <= pageCount && m != skip ensures answers.get(m) == OK && answers.write(m) == OK {
          if m > n { assert n + 1 <= m; }
        }
      }
    }
  }

  /** Some step of changing the key fails. */
  predicate SomeStepFails(answers: Answers, pageCount: nat, skip: nat) {
    || answers.begin != OK
    || answers.commit != OK
    || exists n :: 1 <= n <= pageCount && n != skip && (answers.get(n) != OK || answers.write(n) != OK)
  }

  /** The answer of the whole: that of the first step that fails. */
  function RekeyAnswer(answers: Answers, pageCount: nat, skip: nat): int {
    if answers.begin != OK then answers.begin
    else if FirstError(answers, 1, pageCount, skip) != OK then FirstError(answers, 1, pageCount, skip)
    else answers.commit
  }

  lemma RekeySucceeds(answers: Answers, pageCount: nat, skip: nat)
    ensures RekeyAnswer(answers, pageCount, skip) == OK <==> !SomeStepFails(answers, pageCount, skip)
  {
    NoErrorIfNoneFails(answers, 1, pageCount, skip);
  }

  /**
   * The pager: the file, the pages it keeps in memory, the journal of the running transaction. Which changed pages
   * are written early is open, and how far a commit gets that fails.
   */
  class Database {
    var file: map<nat, seq<bv8>>
    var cache: map<nat, seq<bv8>>
    var dirty: set<nat>
    var journal: map<nat, seq<bv8>>
    var keys: KeyState

    /** In the middle of the transaction, contents being what the pages held at its start in the file was. */
    ghost predicate Running(was: map<nat, seq<bv8>>, skip: nat, content: map<nat, seq<bv8>>)
      reads this
    {
      && file.Keys == was.Keys && Written(was, keys, skip, content)
      && cache.Keys <= was.Keys - {skip} && journal.Keys <= was.Keys - {skip}
      && dirty <= cache.Keys && dirty <= journal.Keys
      && (forall n :: n in cache ==> cache[n] == content[n])
      && (forall n :: n in journal ==> journal[n] == was[n])
      && (forall n :: n in was && n !in journal ==> file[n] == was[n])
      && (forall n :: n in journal && n !in dirty ==> file[n] == ForFile(keys, n, content[n]))
    }

    /** sqlite3PagerGet. */
    method Get(n: nat, answer: int, ghost was: map<nat, seq<bv8>>, ghost skip: nat,
               ghost content: map<nat, seq<bv8>>) returns (rc: int)
      requires Running(was, skip, content) && n in file && n != skip && n !in journal
      modifies `cache
      ensures Running(was, skip, content) && rc == answer && (rc == OK ==> n in cache)
    {
      hide Loaded, ForFile, ForJournal, Readable, Written;
      if answer != OK {
        return answer;
      }
      if n !in cache {
        WrittenHolds(was, keys, skip, content);
        cache := cache[n := Loaded(keys, n, file[n])];
      }
      return OK;
    }

    /** As it was read, the page is what the file has. */
    lemma JournalEntry(n: nat, was: map<nat, seq<bv8>>, skip: nat, content: map<nat, seq<bv8>>)
      requires Running(was, skip, content) && n in cache
      ensures ForJournal(keys, n, cache[n]) == was[n]
    {
      hide ForFile, ForJournal, Readable;
    }

    /** sqlite3PagerWrite: the page goes to the journal as it was read, and may be changed from then on. */
    method Write(n: nat, answer: int, ghost was: map<nat, seq<bv8>>, ghost skip: nat,
                 ghost content: map<nat, seq<bv8>>) returns (rc: int)
      requires Running(was, skip, content) && n in cache
      modifies `journal, `dirty, `file, `cache
      ensures Running(was, skip, content) && journal.Keys <= old(journal.Keys) + {n} && file.Keys == old(file.Keys)
      ensures rc == answer && (rc == OK ==> journal.Keys == old(journal.Keys) + {n})
    {
      hide Loaded, ForFile, ForJournal, Readable, Written;
      if answer != OK {
        return answer;
      }
      if n !in journal {
        JournalEntry(n, was, skip, content);
        journal := journal[n := ForJournal(keys, n, cache[n])];
        dirty := dirty + {n};
      }
      Spill(was, skip, content);
      return OK;
    }

    /** A changed page is written to the file. */
    method Store(n: nat, ghost was: map<nat, seq<bv8>>, ghost skip: nat, ghost content: map<nat, seq<bv8>>)
      requires Running(was, skip, content) && n in dirty
      modifies `dirty, `file
      ensures Running(was, skip, content) && dirty == old(dirty) - {n}
    {
      hide Loaded, ForFile, ForJournal, Readable, Written;
      file := file[n := ForFile(keys, n, cache[n])];
      dirty := dirty - {n};
    }

    /** A page that has been written may leave the cache. */
    method Forget(n: nat, ghost was: map<nat, seq<bv8>>, ghost skip: nat, ghost content: map<nat, seq<bv8>>)
      requires Running(was, skip, content) && n !in dirty
      modifies `cache
      ensures Running(was, skip, content)
    {
      hide Loaded, ForFile, ForJournal, Readable, Written;
      cache := cache - {n};
    }

    /** Changed pages may be written to the file, and forgotten, at any time. */
    method Spill(ghost was: map<nat, seq<bv8>>, ghost skip: nat, ghost content: map<nat, seq<bv8>>)
      requires Running(was, skip, content)
      modifies `dirty, `file, `cache
      ensures Running(was, skip, content)
    {
      hide Running;
      var left := dirty;
      while left != {}
        invariant Running(was, skip, content) && left <= dirty
        decreases |left|
      {
        var n :| n in left;
        left := left - {n};
        if * {
          Store(n, was, skip, content);
          if * {
            Forget(n, was, skip, content);
          }
        }
      }
    }

    /** sqlite3BtreeCommit: all changed pages are written, unless a write fails. */
    method Commit(answer: int, ghost was: map<nat, seq<bv8>>, ghost skip: nat, ghost content: map<nat, seq<bv8>>)
      returns (rc: int)
      requires Running(was, skip, content)
      modifies `dirty, `file, `journal
      ensures rc == answer
      ensures rc != OK ==> Running(was, skip, content)
      ensures rc == OK ==>
                && file.Keys == was.Keys && dirty == {} && journal == map[]
                && (forall n :: n in old(journal) ==> file[n] == ForFile(keys, n, content[n]))
                && (forall n :: n in was && n !in old(journal) ==> file[n] == was[n])
    {
      hide Loaded, ForFile, ForJournal, Readable, Written;
      while dirty != {}
        invariant Running(was, skip, content) && journal == old(journal)
        decreases |dirty|
      {
        if answer != OK {
          if * {
            return answer;
          }
        }
        var n :| n in dirty;
        Store(n, was, skip, content);
      }
      if answer != OK {
        return answer;
      }
      journal := map[];
      return OK;
    }

    /** A page of the journal goes back to the file, and, decoded, to the cache. */
    method Replay(n: nat, ghost was: map<nat, seq<bv8>>, ghost skip: nat, ghost content: map<nat, seq<bv8>>)
      requires Running(was, skip, content) && n in journal
      modifies `file, `cache, `dirty, `journal
      ensures Running(was, skip, content) && journal.Keys == old(journal.Keys) - {n}
    {
      hide Running;
      PutBack(n, was, skip, content);
      if n in cache {
        Reread(n, was, skip, content);
      }
    }

    /** The page as the journal has it is written to the file. */
    method PutBack(n: nat, ghost was: map<nat, seq<bv8>>, ghost skip: nat, ghost content: map<nat, seq<bv8>>)
      requires Running(was, skip, content) && n in journal
      modifies `file, `dirty, `journal
      ensures Running(was, skip, content) && journal == old(journal) - {n}
    {
      hide Loaded, ForFile, ForJournal, Readable, Written;
      file := file[n := journal[n]];
      dirty := dirty - {n};
      journal := journal - {n};
    }

    /** A page in the cache is decoded anew from the file. */
    method Reread(n: nat, ghost was: map<nat, seq<bv8>>, ghost skip: nat, ghost content: map<nat, seq<bv8>>)
      requires Running(was, skip, content) && n in cache && n !in journal
      modifies `cache
      ensures Running(was, skip, content) && cache.Keys == old(cache.Keys)
    {
      hide Loaded, ForFile, ForJournal, Readable, Written;
      WrittenHolds(was, keys, skip, content);
      cache := cache[n := Loaded(keys, n, file[n])];
    }

    /** sqlite3BtreeRollback. */
    method Rollback(ghost was: map<nat, seq<bv8>>, ghost skip: nat, ghost content: map<nat, seq<bv8>>)
      requires Running(was, skip, content)
      modifies `file, `cache, `dirty, `journal
      ensures Running(was, skip, content) && file == was && dirty == {} && journal == map[]
    {
      hide Loaded, ForFile, ForJournal, Readable, Written;
      while journal.Keys != {}
        invariant Running(was, skip, content)
        decreases |journal.Keys|
      {
        var n :| n in journal.Keys;
        Replay(n, was, skip, content);
      }
    }

    /** No transaction runs, and the file has this content under the keys. */
    ghost predicate Idle(skip: nat, content: map<nat, seq<bv8>>)
      reads this
    {
      && journal == map[] && dirty == {} && Settled(keys)
      && Written(file, keys, skip, content)
      && cache.Keys <= file.Keys - {skip} && (forall n :: n in cache ==> cache[n] == content[n])
    }

    /** The first part of sqlite3_rekey_v2: the keys of the transaction, read with the old, written with the new. */
    method Prepare(newKey: Option<seq<bv8>>)
      requires Settled(keys) && (newKey.Some? || keys.isEncrypted)
      modifies `keys
      ensures keys == DuringRekey(old(keys), newKey)
    {
      if !keys.isEncrypted {
        keys := KeyState(true, false, true, keys.readKey, newKey.value);
      } else if newKey.None? {
        keys := keys.(hasWriteKey := false);
      } else {
        keys := keys.(writeKey := newKey.value);
        keys := keys.(hasWriteKey := true);
      }
    }

    lemma NoneSkipped(was: map<nat, seq<bv8>>, skip: nat, content: map<nat, seq<bv8>>)
      requires Running(was, skip, content)
      ensures file.Keys == was.Keys
    {
    }

    /** The loop over all pages. */
    method RewritePages(pageCount: nat, skip: nat, answers: Answers, ghost was: map<nat, seq<bv8>>,
                        ghost content: map<nat, seq<bv8>>)
      returns (rc: int)
      requires Running(was, skip, content) && journal == map[]
      requires forall n :: n in was <==> 1 <= n <= pageCount
      modifies `file, `cache, `dirty, `journal
      ensures Running(was, skip, content)
      ensures rc == FirstError(answers, 1, pageCount, skip)
      ensures rc == OK ==> journal.Keys == was.Keys - {skip}
    {
      hide Running;
      rc := OK;
      var n := 1;
      NoneSkipped(was, skip, content);
      while rc == OK && n <= pageCount
        invariant 1 <= n <= pageCount + 1 && Running(was, skip, content) && file.Keys == was.Keys
        invariant forall m :: m in journal.Keys ==> 1 <= m < n && m != skip
        invariant rc == OK ==> forall m :: 1 <= m < n && m != skip ==> m in journal.Keys
        invariant FirstError(answers, 1, pageCount, skip)
               == if rc == OK then FirstError(answers, n, pageCount, skip) else rc
      {
        if n != skip {
          rc := Get(n, answers.get(n), was, skip, content);
          if rc == OK {
            rc := Write(n, answers.write(n), was, skip, content);
          }
        }
        n := n + 1;
      }
    }

    /** The middle of sqlite3_rekey_v2: the transaction, committed or rolled back. */
    method Transact(pageCount: nat, skip: nat, answers: Answers, ghost was: map<nat, seq<bv8>>,
                    ghost content: map<nat, seq<bv8>>)
      returns (rc: int)
      requires Running(was, skip, content) && journal == map[]
      requires forall n :: n in was <==> 1 <= n <= pageCount
      modifies `file, `cache, `dirty, `journal
      ensures rc == RekeyAnswer(answers, pageCount, skip)
      ensures dirty == {} && journal == map[] && file.Keys == was.Keys
      ensures cache.Keys <= was.Keys - {skip} && forall n :: n in cache ==> cache[n] == content[n]
      ensures rc == OK ==>
                forall n :: n in was ==> file[n] == if n == skip then was[n] else ForFile(keys, n, content[n])
      ensures rc != OK ==> file == was
    {
      hide Loaded, ForFile, ForJournal, Readable, Written, FirstError;
      rc := answers.begin;
      if rc == OK {
        rc := RewritePages(pageCount, skip, answers, was, content);
      }
      if rc == OK {
        rc := Commit(answers.commit, was, skip, content);
      }
      if rc != OK {
        Rollback(was, skip, content);
      }
    }

    /** The last part of sqlite3_rekey_v2: one key is given up, and the codec with it when nothing is encrypted. */
    method Conclude(rc: int)
      requires keys.isEncrypted
      modifies `keys
      ensures keys == AfterRekey(old(keys), rc == OK)
    {
      if rc == OK {
        if keys.hasWriteKey {
          keys := keys.(readKey := keys.writeKey);
          keys := keys.(hasReadKey := true);
        } else {
          keys := keys.(isEncrypted := false);
        }
      } else {
        if keys.hasReadKey {
          keys := keys.(writeKey := keys.readKey);
        } else {
          keys := keys.(isEncrypted := false);
        }
      }
      if !keys.isEncrypted {
        keys := PLAIN;
      }
    }

    /**
     * sqlite3_rekey_v2. On success the file reads, and was written, under the new keys with its content kept; on
     * failure the file is what it was. The keys are then as before, unless the key was to be removed: the
     * write key is not put back.
     */
    method Rekey(newKey: Option<seq<bv8>>, pageCount: nat, skip: nat, answers: Answers,
                 ghost content: map<nat, seq<bv8>>)
      returns (rc: int)
      requires Idle(skip, content) && (forall n :: n in file <==> 1 <= n <= pageCount)
      modifies this
      ensures newKey.None? && !old(keys).isEncrypted ==> rc == OK && file == old(file) && keys == old(keys)
      ensures newKey.Some? || old(keys).isEncrypted ==>
                && rc == RekeyAnswer(answers, pageCount, skip)
                && (rc == OK <==> !SomeStepFails(answers, pageCount, skip))
      ensures Written(file, keys, skip, content) && Holds(file, keys, skip, content)
      ensures skip in file ==> file[skip] == old(file[skip])
      ensures rc == OK ==> Idle(skip, content) && keys.isEncrypted == newKey.Some?
      ensures rc == OK ==> Stored(file, newKey, skip, content)
      ensures rc == OK && newKey.Some? ==> keys.readKey == keys.writeKey == newKey.value
      ensures rc != OK ==> file == old(file) && keys.isEncrypted == old(keys.isEncrypted)
      ensures rc != OK && newKey.Some? && keys.isEncrypted ==> keys == old(keys)
      ensures rc != OK && newKey.None? ==> keys == old(keys).(hasWriteKey := false)
      ensures rc != OK ==> (Idle(skip, content) <==> newKey.Some?)
    {
      hide Loaded, ForFile, ForJournal, Readable, Written, FirstError, SomeStepFails, RekeyAnswer, Stored;
      ghost var was, before := file, keys;
      if newKey.None? && !keys.isEncrypted {
        WrittenHolds(file, keys, skip, content);
        WrittenIsStored(file, keys, skip, content);
        return OK;
      }
      Prepare(newKey);
      SameJournal(was, before, newKey, skip, content);
      RekeySucceeds(answers, pageCount, skip);
      rc := Transact(pageCount, skip, answers, was, content);
      Conclude(rc);
      if rc == OK {
        RewrittenFile(was, before, newKey, skip, content, file);
        WrittenIsStored(file, keys, skip, content);
      } else {
        SameAfterFailure(was, before, newKey, skip, content);
      }
      WrittenHolds(file, keys, skip, content);
    }
  }

  /** The keys while the pages are rewritten. */
  function DuringRekey(k: KeyState, newKey: Option<seq<bv8>>): KeyState
    requires newKey.Some? || k.isEncrypted
  {
    if !k.isEncrypted then KeyState(true, false, true, k.readKey, newKey.value)
    else if newKey.None? then k.(hasWriteKey := false)
    else k.(writeKey := newKey.value, hasWriteKey := true)
  }

  /** The keys afterwards; without encryption the codec is removed. */
  function AfterRekey(k: KeyState, success: bool): KeyState {
    if success then
      (if k.hasWriteKey then k.(readKey := k.writeKey, hasReadKey := true) else PLAIN)
    else
      (if k.hasReadKey then k.(writeKey := k.readKey) else PLAIN)
  }

  /** The journal is written with the keys the file was read with. */
  lemma SameJournal(was: map<nat, seq<bv8>>, k: KeyState, newKey: Option<seq<bv8>>, skip: nat,
                    content: map<nat, seq<bv8>>)
    requires newKey.Some? || k.isEncrypted
    requires Written(was, k, skip, content)
    ensures Written(was, DuringRekey(k, newKey), skip, content)
  {
    hide Readable;
  }

  lemma SameAfterFailure(was: map<nat, seq<bv8>>, k: KeyState, newKey: Option<seq<bv8>>, skip: nat,
                         content: map<nat, seq<bv8>>)
    requires (newKey.Some? || k.isEncrypted) && Settled(k)
    requires Written(was, k, skip, content)
    ensures Written(was, AfterRekey(DuringRekey(k, newKey), false), skip, content)
  {
    hide Readable;
  }

  /** The pages that were written during the run are those the new keys read. */
  lemma RewrittenFile(was: map<nat, seq<bv8>>, k: KeyState, newKey: Option<seq<bv8>>, skip: nat,
                      content: map<nat, seq<bv8>>,
                      file: map<nat, seq<bv8>>)
    requires (newKey.Some? || k.isEncrypted) && Settled(k)
    requires Written(was, k, skip, content) && file.Keys == was.Keys
    requires forall n :: n in file && n != skip ==> file[n] == ForFile(DuringRekey(k, newKey), n, content[n])
    ensures Written(file, AfterRekey(DuringRekey(k, newKey), true), skip, content)
  {
    hide Readable;
  }
}
