/** Creating a folder from the side menu (src/components/Menu/NewFolder.tsx):
    the new folder takes the first unused name "New Folder k", goes to the
    top of the list, and every existing folder moves one place down. The
    folder id comes from `uuidv4` and is a parameter here. */
module NewFolder {
  import opened Wrappers
  import opened Strings
  import opened ChatTypes

  const NamePrefix := "New Folder "

  /** `New Folder ${k}` */
  function FolderName(k: nat): (r: string)
    ensures |r| > |NamePrefix| && r[..|NamePrefix|] == NamePrefix
    ensures r[|NamePrefix|..] == NatToString(k)
  {
    NamePrefix + NatToString(k)
  }

  /** Different indices give different names. */
  lemma FolderNameInjective(a: nat, b: nat)
    ensures FolderName(a) == FolderName(b) <==> a == b
  {
    if FolderName(a) == FolderName(b) {
      NatToStringInjective(a, b);
    }
  }

  /** `Object.values(folders).some((folder) => folder.name === name)` */
  predicate NameUsed(folders: map<string, Folder>, name: string) {
    exists id | id in folders :: folders[id].name == name
  }

  /** The folders whose name is one of "New Folder 1" to "New Folder k-1". */
  ghost function Tried(folders: map<string, Folder>, k: nat): set<string> {
    set id | id in folders && exists j :: 1 <= j < k && folders[id].name == FolderName(j)
  }

  /** The loop of `addFolder`: the smallest k >= 1 whose name no folder
      carries, and that name. */
  method PickName(folders: map<string, Folder>) returns (k: nat, name: string)
    ensures k >= 1 && name == FolderName(k)
    ensures !NameUsed(folders, name)
    ensures forall j | 1 <= j < k :: NameUsed(folders, FolderName(j))
  {
    k := 1;
    name := FolderName(1);
    while NameUsed(folders, name)
      invariant k >= 1 && name == FolderName(k)
      invariant forall j | 1 <= j < k :: NameUsed(folders, FolderName(j))
      decreases folders.Keys - Tried(folders, k)
    {
      ghost var id :| id in folders && folders[id].name == name;
      assert id !in Tried(folders, k) by {
        forall j | 1 <= j < k ensures folders[id].name != FolderName(j) {
          FolderNameInjective(j, k);
        }
      }
      assert id in Tried(folders, k + 1);
      assert Tried(folders, k) <= Tried(folders, k + 1);
      k := k + 1;
      name := FolderName(k);
    }
  }

  /** Every folder one place further down the list. */
  function ShiftOrders(folders: map<string, Folder>): (r: map<string, Folder>)
    ensures r.Keys == folders.Keys
    ensures forall id | id in folders :: r[id] == folders[id].(order := folders[id].order + 1)
  {
    map id | id in folders :: folders[id].(order := folders[id].order + 1)
  }

  /** `{ [id]: newFolder, ...updatedFolders }`: the new folder, collapsed and
      first in order, next to the shifted folders. The spread comes last, so
      if the id were already taken the shifted old folder would win. */
  function Insert(folders: map<string, Folder>, id: string, name: string): (r: map<string, Folder>)
    ensures r.Keys == folders.Keys + {id}
    ensures id !in folders ==> r[id] == Folder(id, name, false, 0, None) && |r| == |folders| + 1
    ensures forall x | x in folders :: r[x] == folders[x].(order := folders[x].order + 1)
  {
    var shifted := ShiftOrders(folders);
    if id in folders then shifted else shifted[id := Folder(id, name, false, 0, None)]
  }

  /** `addFolder` with the id `uuidv4` produced. */
  method AddFolder(folders: map<string, Folder>, id: string) returns (r: map<string, Folder>, name: string)
    ensures !NameUsed(folders, name)
    ensures exists k: nat :: k >= 1 && name == FolderName(k) && forall j | 1 <= j < k :: NameUsed(folders, FolderName(j))
    ensures r == Insert(folders, id, name)
    ensures id !in folders ==> NameUsed(r, name)
  {
    var k;
    k, name := PickName(folders);
    r := Insert(folders, id, name);
    if id !in folders {
      assert r[id].name == name;
    }
  }

  /** Folder names are unique. */
  predicate DistinctNames(folders: map<string, Folder>) {
    forall a, b | a in folders && b in folders && a != b :: folders[a].name != folders[b].name
  }

  /** With a fresh id, inserting under an unused name keeps names unique,
      and the new folder is the only one first in order when no order was
      negative. */
  lemma InsertKeepsNamesDistinct(folders: map<string, Folder>, id: string, name: string)
    requires DistinctNames(folders) && !NameUsed(folders, name) && id !in folders
    ensures DistinctNames(Insert(folders, id, name))
    ensures (forall x | x in folders :: folders[x].order >= 0) ==>
      forall x | x in Insert(folders, id, name) && x != id :: Insert(folders, id, name)[x].order > Insert(folders, id, name)[id].order
  {
    var r := Insert(folders, id, name);
    forall a, b | a in r && b in r && a != b ensures r[a].name != r[b].name {
      if a != id && b != id {
        assert r[a].name == folders[a].name && r[b].name == folders[b].name;
      } else if a == id {
        assert r[b].name == folders[b].name;
      } else {
        assert r[a].name == folders[a].name;
      }
    }
  }

  /** Shifting is order-preserving: the relative order of the existing
      folders does not change. */
  lemma ShiftKeepsRelativeOrder(folders: map<string, Folder>, a: string, b: string)
    requires a in folders && b in folders
    ensures ShiftOrders(folders)[a].order < ShiftOrders(folders)[b].order <==> folders[a].order < folders[b].order
    ensures ShiftOrders(folders)[a].(order := folders[a].order) == folders[a]
  {
  }
}
