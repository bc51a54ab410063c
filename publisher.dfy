/**
  Publishing the README to the profile repository (app.py, lines 66-91): read README.md at the
  branch and update it with the revision marker just read; if anything in that block raises,
  create the file instead. The hosting API is a store of files keyed by branch and path, with
  oracles that say whether each kind of call raises.
*/
module RepositoryPublisher {
  import opened Wrappers

  const ReadmePath: string := "README.md"
  const DefaultBranch: string := "main"
  const UpdateMessage: string := "Update README.md via Profile Generator"
  const CreateMessage: string := "Create README.md via Profile Generator"

  datatype FileKey = FileKey(branch: string, path: string)

  /** A stored file: its content and its revision marker (the blob sha). */
  datatype Entry = Entry(content: string, sha: string)

  /** What reading a file returns: its path, revision marker and content. */
  datatype ContentFile = ContentFile(path: string, sha: string, content: string)

  /** One call made on the hosting API, with the arguments it was given. */
  datatype Call =
    | GetContents(path: string, ref: string)
    | UpdateFile(path: string, message: string, content: string, sha: string, branch: string)
    | CreateFile(path: string, message: string, content: string, branch: string)
  {
    function Branch(): string
    {
      match this
      case GetContents(_, ref) => ref
      case UpdateFile(_, _, _, _, branch) => branch
      case CreateFile(_, _, _, branch) => branch
    }
  }

  /**
    The remote's behaviour beyond the stored files: whether a read, an update or a create
    raises for reasons of its own (network, permissions, concurrent edits), and the revision
    marker it gives to the next content it stores.
  */
  datatype Oracle = Oracle(readFails: bool, updateFails: bool, createFails: bool, newSha: string)

  type Files = map<FileKey, Entry>

  /** Reading a file succeeds when it exists at that ref and the read does not fail. */
  function Read(files: Files, oracle: Oracle, path: string, ref: string): (r: Option<ContentFile>)
    ensures r.Some? <==> !oracle.readFails && FileKey(ref, path) in files
    ensures r.Some? ==> (r.value.path == path
                         && Entry(r.value.content, r.value.sha) == files[FileKey(ref, path)])
  {
    var key := FileKey(ref, path);
    if !oracle.readFails && key in files then
      Some(ContentFile(path, files[key].sha, files[key].content))
    else
      None
  }

  /** An update needs the file to exist with exactly the revision marker the caller gives. */
  predicate UpdateSucceeds(files: Files, oracle: Oracle, path: string, sha: string, branch: string)
  {
    !oracle.updateFails && FileKey(branch, path) in files && files[FileKey(branch, path)].sha == sha
  }

  /** A create needs the file not to exist yet on that branch. */
  predicate CreateSucceeds(files: Files, oracle: Oracle, path: string, branch: string)
  {
    !oracle.createFails && FileKey(branch, path) !in files
  }

  /** The outcome of one publish: the result returned, the files afterwards, and the calls made. */
  datatype Publish = Publish(ok: bool, files: Files, calls: seq<Call>)

  /** The create fallback, after the calls in `made`. */
  function Fallback(files: Files, oracle: Oracle, content: string, branch: string, made: seq<Call>): (p: Publish)
    ensures p.calls == made + [CreateFile(ReadmePath, CreateMessage, content, branch)]
    ensures p.ok <==> CreateSucceeds(files, oracle, ReadmePath, branch)
    ensures p.files == if p.ok then files[FileKey(branch, ReadmePath) := Entry(content, oracle.newSha)] else files
  {
    var create := CreateFile(ReadmePath, CreateMessage, content, branch);
    if CreateSucceeds(files, oracle, ReadmePath, branch) then
      Publish(true, files[FileKey(branch, ReadmePath) := Entry(content, oracle.newSha)], made + [create])
    else
      Publish(false, files, made + [create])
  }

  /**
    Create-or-update of README.md at `branch`: read it, update it with the marker just read,
    and on any failure in that block fall back to creating it.
  */
  function PublishReadme(files: Files, oracle: Oracle, content: string, branch: string): (p: Publish)
    // exactly one read, first, of README.md at the branch; every call stays on the branch
    ensures 2 <= |p.calls| <= 3 && p.calls[0] == GetContents(ReadmePath, branch)
    ensures forall i :: 0 <= i < |p.calls| ==> p.calls[i].Branch() == branch
    // an update is made only second, only after a read that went through, and with the sha it read
    ensures forall i :: 0 <= i < |p.calls| && p.calls[i].UpdateFile? ==>
              && i == 1 && Read(files, oracle, ReadmePath, branch).Some?
              && p.calls[i] == UpdateFile(ReadmePath, UpdateMessage, content, files[FileKey(branch, ReadmePath)].sha, branch)
    // success stores exactly the new content; failure stores nothing; no other file changes
    ensures p.ok ==> FileKey(branch, ReadmePath) in p.files && p.files[FileKey(branch, ReadmePath)].content == content
    ensures !p.ok ==> p.files == files
    ensures forall k :: k != FileKey(branch, ReadmePath) ==> (k in p.files <==> k in files)
    ensures forall k :: k != FileKey(branch, ReadmePath) && k in files ==> p.files[k] == files[k]
  {
    var read := Read(files, oracle, ReadmePath, branch);
    var get := GetContents(ReadmePath, branch);
    if read.Some? then
      var contents := read.value;
      var update := UpdateFile(contents.path, UpdateMessage, content, contents.sha, branch);
      if UpdateSucceeds(files, oracle, contents.path, contents.sha, branch) then
        Publish(true, files[FileKey(branch, contents.path) := Entry(content, oracle.newSha)], [get, update])
      else
        Fallback(files, oracle, content, branch, [get, update])
    else
      Fallback(files, oracle, content, branch, [get])
  }

  /** How many of the calls are updates, and how many are creates. */
  function Updates(calls: seq<Call>): (n: nat)
  {
    if calls == [] then 0 else (if calls[0].UpdateFile? then 1 else 0) + Updates(calls[1..])
  }

  function Creates(calls: seq<Call>): (n: nat)
  {
    if calls == [] then 0 else (if calls[0].CreateFile? then 1 else 0) + Creates(calls[1..])
  }

  /** Counting call by call: a call appended adds one to its own kind's count only. */
  lemma {:induction false} CountAppend(calls: seq<Call>, c: Call)
    ensures Updates(calls + [c]) == Updates(calls) + (if c.UpdateFile? then 1 else 0)
    ensures Creates(calls + [c]) == Creates(calls) + (if c.CreateFile? then 1 else 0)
  {
    if calls == [] {
      assert [c][1..] == [];
    } else {
      assert (calls + [c])[1..] == calls[1..] + [c];
      CountAppend(calls[1..], c);
    }
  }

  /** The counts of a publish's two or three calls, taken one call at a time. */
  lemma CountCalls(calls: seq<Call>)
    requires 2 <= |calls| <= 3
    ensures Updates(calls) == (if calls[0].UpdateFile? then 1 else 0) + (if calls[1].UpdateFile? then 1 else 0)
                              + (if |calls| == 3 && calls[2].UpdateFile? then 1 else 0)
    ensures Creates(calls) == (if calls[0].CreateFile? then 1 else 0) + (if calls[1].CreateFile? then 1 else 0)
                              + (if |calls| == 3 && calls[2].CreateFile? then 1 else 0)
  {
    assert [] + [calls[0]] == [calls[0]];
    assert [calls[0]] + [calls[1]] == calls[..2];
    CountAppend([], calls[0]);
    CountAppend([calls[0]], calls[1]);
    if |calls| == 3 {
      assert calls[..2] + [calls[2]] == calls;
      CountAppend(calls[..2], calls[2]);
    } else {
      assert calls[..2] == calls;
    }
  }

  /**
    When README.md exists and both the read and the update go through, the update carries the
    marker just read and the fixed update message, nothing is created, and the result is true.
  */
  lemma UpdateWhenFound(files: Files, oracle: Oracle, content: string, branch: string)
    requires FileKey(branch, ReadmePath) in files
    requires !oracle.readFails && !oracle.updateFails
    ensures var p := PublishReadme(files, oracle, content, branch);
            && p.ok
            && p.calls == [GetContents(ReadmePath, branch),
                           UpdateFile(ReadmePath, UpdateMessage, content, files[FileKey(branch, ReadmePath)].sha, branch)]
            && Updates(p.calls) == 1 && Creates(p.calls) == 0
  {
    CountCalls(PublishReadme(files, oracle, content, branch).calls);
  }

  /**
    When the read or the update raises, the fallback creates README.md with the fixed create
    message, and the result is true exactly when that create goes through.
  */
  lemma CreateWhenReadOrUpdateFails(files: Files, oracle: Oracle, content: string, branch: string)
    requires oracle.readFails || oracle.updateFails || FileKey(branch, ReadmePath) !in files
    ensures var p := PublishReadme(files, oracle, content, branch);
            && p.calls[|p.calls| - 1] == CreateFile(ReadmePath, CreateMessage, content, branch)
            && (p.ok <==> CreateSucceeds(files, oracle, ReadmePath, branch))
            && Creates(p.calls) == 1
            && (Read(files, oracle, ReadmePath, branch).None? ==>
                  p.calls == [GetContents(ReadmePath, branch), CreateFile(ReadmePath, CreateMessage, content, branch)])
  {
    CountCalls(PublishReadme(files, oracle, content, branch).calls);
  }

  /**
    A rejected update of an existing README.md (a stale revision marker, say) is not retried:
    the update carried the marker just read, the create fallback that follows fails because the
    file exists, and the publish reports failure with the files untouched.
  */
  lemma RejectedUpdateFails(files: Files, oracle: Oracle, content: string, branch: string)
    requires FileKey(branch, ReadmePath) in files
    requires !oracle.readFails && oracle.updateFails
    ensures var p := PublishReadme(files, oracle, content, branch);
            && p.calls == [GetContents(ReadmePath, branch),
                           UpdateFile(ReadmePath, UpdateMessage, content, files[FileKey(branch, ReadmePath)].sha, branch),
                           CreateFile(ReadmePath, CreateMessage, content, branch)]
            && !p.ok && p.files == files
  {
  }

  /** With no README.md on the branch: one create, no update, whatever the read oracle says. */
  lemma MissingFileIsCreated(files: Files, oracle: Oracle, content: string, branch: string)
    requires FileKey(branch, ReadmePath) !in files
    ensures var p := PublishReadme(files, oracle, content, branch);
            && p.calls == [GetContents(ReadmePath, branch), CreateFile(ReadmePath, CreateMessage, content, branch)]
            && Updates(p.calls) == 0 && Creates(p.calls) == 1
            && (p.ok <==> !oracle.createFails)
  {
    CountCalls(PublishReadme(files, oracle, content, branch).calls);
  }

  /**
    When README.md already exists, the create fallback cannot succeed, so the publish succeeds
    exactly when the read and the update both do: a failed read of an existing file is reported
    as a failure, never papered over by a second copy.
  */
  lemma ExistingFileNeedsUpdate(files: Files, oracle: Oracle, content: string, branch: string)
    requires FileKey(branch, ReadmePath) in files
    ensures PublishReadme(files, oracle, content, branch).ok <==> !oracle.readFails && !oracle.updateFails
  {
  }

  /**
    Publishing is idempotent on content: publishing the same markdown again, successfully,
    leaves the file with the same content as the first successful publish did.
  */
  lemma PublishConverges(files: Files, o1: Oracle, o2: Oracle, content: string, branch: string)
    requires PublishReadme(files, o1, content, branch).ok
    ensures var once := PublishReadme(files, o1, content, branch);
            var twice := PublishReadme(once.files, o2, content, branch);
            && (twice.ok <==> !o2.readFails && !o2.updateFails)
            && (twice.ok ==> twice.files[FileKey(branch, ReadmePath)].content
                             == once.files[FileKey(branch, ReadmePath)].content)
  {
  }

  /**
    The remote repository: its files and the calls made on it so far. Each method is one call
    of the hosting API, described by the pure functions above.
  */
  class Repository {
    const owner: string
    const name: string
    var files: Files
    var oracle: Oracle
    var calls: seq<Call>

    constructor (owner: string, name: string, files: Files, oracle: Oracle)
      ensures this.owner == owner && this.name == name
      ensures this.files == files && this.oracle == oracle && calls == []
    {
      this.owner := owner;
      this.name := name;
      this.files := files;
      this.oracle := oracle;
      calls := [];
    }

    method GetContents(path: string, ref: string) returns (contents: Option<ContentFile>)
      modifies this`calls
      ensures contents == Read(files, oracle, path, ref)
      ensures calls == old(calls) + [Call.GetContents(path, ref)]
    {
      var key := FileKey(ref, path);
      if !oracle.readFails && key in files {
        contents := Some(ContentFile(path, files[key].sha, files[key].content));
      } else {
        contents := None;
      }
      calls := calls + [Call.GetContents(path, ref)];
    }

    method UpdateFile(path: string, message: string, content: string, sha: string, branch: string)
      returns (ok: bool)
      modifies this`files, this`calls
      ensures ok == UpdateSucceeds(old(files), oracle, path, sha, branch)
      ensures files == if ok then old(files)[FileKey(branch, path) := Entry(content, oracle.newSha)] else old(files)
      ensures calls == old(calls) + [Call.UpdateFile(path, message, content, sha, branch)]
    {
      ok := UpdateSucceeds(files, oracle, path, sha, branch);
      if ok {
        files := files[FileKey(branch, path) := Entry(content, oracle.newSha)];
      }
      calls := calls + [Call.UpdateFile(path, message, content, sha, branch)];
    }

    method CreateFile(path: string, message: string, content: string, branch: string)
      returns (ok: bool)
      modifies this`files, this`calls
      ensures ok == CreateSucceeds(old(files), oracle, path, branch)
      ensures files == if ok then old(files)[FileKey(branch, path) := Entry(content, oracle.newSha)] else old(files)
      ensures calls == old(calls) + [Call.CreateFile(path, message, content, branch)]
    {
      ok := CreateSucceeds(files, oracle, path, branch);
      if ok {
        files := files[FileKey(branch, path) := Entry(content, oracle.newSha)];
      }
      calls := calls + [Call.CreateFile(path, message, content, branch)];
    }
  }

  /** Writes `content` to README.md of `repo`, updating it in place or creating it. */
  method UpdateReadme(repo: Repository, content: string, branch: string := DefaultBranch) returns (ok: bool)
    modifies repo`files, repo`calls
    ensures var p := PublishReadme(old(repo.files), repo.oracle, content, branch);
            ok == p.ok && repo.files == p.files && repo.calls == old(repo.calls) + p.calls
  {
    var contents := repo.GetContents(ReadmePath, branch);
    if contents.Some? {
      var updated := repo.UpdateFile(contents.value.path, UpdateMessage, content, contents.value.sha, branch);
      if updated {
        return true;
      }
    }
    ok := repo.CreateFile(ReadmePath, CreateMessage, content, branch);
  }
}
