/**
 * The credentials file: a JSON object mapping str(chat_id) to a username and
 * password, read by load_saved_credentials and rewritten whole by
 * save_credentials and delete_saved_credentials.
 */
module Credentials {
  import opened Text

  datatype Credential = Credential(username: string, password: string)

  /**
   * What the bot can observe of the file: whether it exists, whether reading
   * it gives valid JSON (false for a permission error or a decode error),
   * whether it may be written or removed, and the entries it holds.
   */
  datatype FileState = FileState(present: bool, readable: bool, writable: bool, entries: map<string, Credential>)

  /** The key of a chat in the file: str(chat_id). */
  function Key(chatId: int): (k: string)
    ensures k != []
  {
    IntToDecimal(chatId)
  }

  /** Distinct chats have distinct keys, so one chat's entry never overwrites another's. */
  lemma KeysDistinct(a: int, b: int)
    requires a != b
    ensures Key(a) != Key(b)
  {
    if Key(a) == Key(b) {
      IntToDecimalInjective(a, b);
    }
  }

  /** load_saved_credentials: the entries of a readable file, and {} on every failure. */
  function Loaded(f: FileState): map<string, Credential> {
    if f.present && f.readable then f.entries else map[]
  }

  /**
   * save_credentials: the loaded entries with this chat's entry set, written
   * back as valid JSON; a file that cannot be written is left as it was.
   */
  function AfterSave(f: FileState, chatId: int, c: Credential): FileState {
    if f.writable then FileState(true, true, true, Loaded(f)[Key(chatId) := c]) else f
  }

  /**
   * delete_saved_credentials: when the loaded entries hold this chat, they are
   * written back without it, or the file is removed when it was the last one.
   */
  function AfterDelete(f: FileState, chatId: int): FileState {
    var creds := Loaded(f);
    if Key(chatId) !in creds || !f.writable then f
    else if creds - {Key(chatId)} == map[] then FileState(false, f.readable, true, map[])
    else FileState(true, true, true, creds - {Key(chatId)})
  }

  /** After a successful save the chat's credentials load back, and every other chat's entry loads as before. */
  lemma SaveThenLoad(f: FileState, chatId: int, c: Credential, other: int)
    requires f.writable && other != chatId
    ensures Key(chatId) in Loaded(AfterSave(f, chatId, c)) && Loaded(AfterSave(f, chatId, c))[Key(chatId)] == c
    ensures Key(other) in Loaded(AfterSave(f, chatId, c)) <==> Key(other) in Loaded(f)
    ensures Key(other) in Loaded(f) ==> Loaded(AfterSave(f, chatId, c))[Key(other)] == Loaded(f)[Key(other)]
  {
    KeysDistinct(chatId, other);
  }

  /**
   * A save over a file that exists but cannot be read (bad JSON or no read
   * permission) starts from {}: every other chat's entry is lost.
   */
  lemma SaveOverUnreadableFile(f: FileState, chatId: int, c: Credential)
    requires f.writable && !f.readable
    ensures Loaded(AfterSave(f, chatId, c)) == map[Key(chatId) := c]
  {
  }

  /**
   * Deleting a chat without an entry changes nothing. After a delete the
   * chat has no entry unless the file could not be changed, the other chats
   * keep theirs, and the file exists exactly when entries remain.
   */
  lemma DeleteThenLoad(f: FileState, chatId: int, other: int)
    requires other != chatId
    ensures Key(chatId) !in Loaded(f) ==> AfterDelete(f, chatId) == f
    ensures f.writable ==> Key(chatId) !in Loaded(AfterDelete(f, chatId))
    ensures Key(other) in Loaded(AfterDelete(f, chatId)) <==> Key(other) in Loaded(f)
    ensures Key(other) in Loaded(f) ==> Loaded(AfterDelete(f, chatId))[Key(other)] == Loaded(f)[Key(other)]
    ensures f.writable && Key(chatId) in Loaded(f) ==>
              (AfterDelete(f, chatId).present <==> Loaded(f) - {Key(chatId)} != map[])
  {
    KeysDistinct(chatId, other);
    var creds := Loaded(f);
    if f.writable && Key(chatId) in creds && creds - {Key(chatId)} == map[] {
      assert Key(other) in creds ==> Key(other) in creds - {Key(chatId)};
    }
  }

  /** Saving and then deleting a chat's credentials leaves the other entries exactly as they were loaded. */
  lemma SaveThenDelete(f: FileState, chatId: int, c: Credential)
    requires f.writable
    ensures Loaded(AfterDelete(AfterSave(f, chatId, c), chatId)) == Loaded(f) - {Key(chatId)}
  {
    var saved := Loaded(f)[Key(chatId) := c];
    assert saved - {Key(chatId)} == Loaded(f) - {Key(chatId)};
  }

  /** The credentials file, updated in place by the bot. */
  class CredentialStore {
    var present: bool
    var readable: bool
    var writable: bool
    var entries: map<string, Credential>

    constructor (f: FileState)
      ensures State() == f
    {
      present, readable, writable, entries := f.present, f.readable, f.writable, f.entries;
    }

    function State(): FileState
      reads this
    {
      FileState(present, readable, writable, entries)
    }

    /** load_saved_credentials */
    method Load() returns (creds: map<string, Credential>)
      ensures creds == Loaded(State())
    {
      if present && readable {
        creds := entries;
      } else {
        creds := map[];
      }
    }

    /** save_credentials(chat_id, username, password) */
    method Save(chatId: int, username: string, password: string)
      modifies this
      ensures State() == AfterSave(old(State()), chatId, Credential(username, password))
    {
      var creds := Load();
      creds := creds[Key(chatId) := Credential(username, password)];
      if writable {
        present, readable, entries := true, true, creds;
      }
    }

    /** delete_saved_credentials(chat_id) */
    method Delete(chatId: int)
      modifies this
      ensures State() == AfterDelete(old(State()), chatId)
    {
      var creds := Load();
      if Key(chatId) in creds {
        creds := creds - {Key(chatId)};
        if creds == map[] {
          if present && writable {
            present, entries := false, map[];
          }
        } else if writable {
          present, readable, entries := true, true, creds;
        }
      }
    }
  }
}
