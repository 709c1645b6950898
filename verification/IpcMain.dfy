/** The character device and the library as they run: state kept in fields and updated in place. */
module IpcMain {
  import opened Bits
  import opened Common
  import opened Registry
  import opened MsgQueue
  import opened Ownership
  import opened Library

  /** The sets the words of the open files stand for. */
  function HeldIds(words: map<int, UInt32>): map<int, set<int>> {
    map f | f in words :: BitSet(words[f])
  }

  lemma StoreWord(words: map<int, UInt32>, f: int, w: UInt32)
    ensures HeldIds(words[f := w]) == HeldIds(words)[f := BitSet(w)]
  {
  }

  lemma DropWord(words: map<int, UInt32>, f: int)
    ensures HeldIds(words - {f}) == HeldIds(words) - {f}
  {
  }

  lemma ReleaseTurn(r: Tables, bits: set<int>, i: nat)
    requires i < |r.queues|
    ensures ReleaseFrom(r, bits, i) == ReleaseFrom(if i in bits then Registry.Rel(r, i).0 else r, bits, i + 1)
  {
  }

  class IpcDriver {
    const info: MsqInfo
    var storequebit: map<int, UInt32>   // the word kept for each open file

    /** The word has a bit for every queue. */
    ghost predicate Valid()
      reads this, info.Repr
    {
      this !in info.Repr && info.Valid() && |info.msgQueTbl| <= 32
    }

    ghost function View(): Driver
      requires info.Shape()
      reads this, info.Repr
    {
      Driver(info.View(), HeldIds(storequebit))
    }

    constructor (info: MsqInfo)
      requires info.Valid() && |info.msgQueTbl| <= 32
      ensures Valid() && this.info == info
      ensures View() == Driver(info.View(), map[])
    {
      this.info := info;
      storequebit := map[];
    }

    /** `ipc_open` of the device: a zeroed word for the new file. */
    method Open(f: int)
      requires Valid()
      modifies this
      ensures Valid() && View() == OpenFile(old(View()), f)
      ensures f in storequebit
    {
      StoreWord(storequebit, f, 0);
      EmptyWord();
      storequebit := storequebit[f := 0];
    }

    /** The GET arm of `ipc_ioctl`. */
    method Get(f: int, key: UInt16) returns (rtn: int)
      requires Valid() && f in storequebit
      modifies this, info.Repr
      ensures Valid() && f in storequebit
      ensures (View(), rtn) == IoctlGet(old(View()), f, key)
    {
      var msqid := info.Get(key);
      if msqid >= 0 {
        StoreWord(storequebit, f, SetBit(storequebit[f], msqid));
        storequebit := storequebit[f := SetBit(storequebit[f], msqid)];
      }
      rtn := msqid;
    }

    /** The REL arm of `ipc_ioctl`. */
    method Rel(f: int, msqid: UInt32) returns (rtn: int)
      requires Valid() && f in storequebit
      modifies this, info.Repr
      ensures Valid() && f in storequebit
      ensures (View(), rtn) == IoctlRel(old(View()), f, msqid)
    {
      rtn := info.Rel(msqid);
      StoreWord(storequebit, f, ClearBit(storequebit[f], msqid));
      storequebit := storequebit[f := ClearBit(storequebit[f], msqid)];
    }

    /** `ipc_release`: release every queue whose bit is set, then drop the word. */
    method Release(f: int)
      requires Valid() && f in storequebit
      modifies this, info.Repr
      ensures Valid() && View() == CloseFile(old(View()), f)
    {
      ghost var bits, all := BitSet(storequebit[f]), ReleaseFrom(info.View(), BitSet(storequebit[f]), 0);
      var i := 0;
      while i < |info.msgQueTbl|
        invariant Valid() && storequebit == old(storequebit)
        invariant 0 <= i <= |info.msgQueTbl| == |info.View().queues|
        invariant ReleaseFrom(info.View(), bits, i) == all
      {
        ReleaseTurn(info.View(), bits, i);
        if TestBit(storequebit[f], i) {
          var _ := info.Rel(i);
        }
        i := i + 1;
      }
      DropWord(storequebit, f);
      storequebit := storequebit - {f};
    }
  }

  /** Opening the device and creating a queue on it make the library's call. */
  lemma GetComposes(l: Lib, d: Driver, key: int, fd: int, l1: Lib, d1: Driver, d2: Driver, rtn: int)
    requires (l.ipcfd >= 0 ==> l.ipcfd in d.files) && LibOpen(l, d, fd) == (l1, d1) && l1.ipcfd >= 0
    requires l1.ipcfd in d1.files && (d2, rtn) == IoctlGet(d1, l1.ipcfd, key % TWO_16)
    ensures LibGet(l, d, key, fd) == (if rtn >= 0 then l1.(msqcnt := l1.msqcnt + 1) else l1, d2, rtn)
  {
  }

  lemma OpenFails(l: Lib, d: Driver, key: int, fd: int, l1: Lib, d1: Driver)
    requires (l.ipcfd >= 0 ==> l.ipcfd in d.files) && LibOpen(l, d, fd) == (l1, d1) && l1.ipcfd < 0
    ensures LibGet(l, d, key, fd) == (l1, d1, -1)
  {
  }

  const IPC_ERR_NOT_OPENED := -11

  class IpcLib {
    const driver: IpcDriver
    var ipcfd: int
    var msqcnt: int

    ghost predicate Valid()
      reads this, driver, driver.info.Repr
    {
      && this !in driver.info.Repr && driver.Valid()
      && (ipcfd >= 0 ==> ipcfd in driver.storequebit)
    }

    ghost function View(): Lib
      reads this
    {
      Lib(ipcfd, msqcnt)
    }

    constructor (driver: IpcDriver)
      requires driver.Valid()
      ensures Valid() && this.driver == driver && View() == Lib(-1, 0)
    {
      this.driver := driver;
      ipcfd := -1;
      msqcnt := 0;
    }

    /** In step with the driver, the count is the number of one bits in the word of the open file. */
    lemma CountsBits()
      requires Valid() && Agrees(View(), driver.View())
      ensures ipcfd >= 0 ==> msqcnt == PopCount(driver.storequebit[ipcfd])
      ensures ipcfd < 0 ==> msqcnt == 0
    {
      if ipcfd >= 0 {
        PopCountIsSize(driver.storequebit[ipcfd]);
      }
    }

    /** `ipc_open`; `fd` is what the system call `open` returns if it is made. */
    method Open(fd: int) returns (ret: int)
      requires Valid()
      modifies this, driver
      ensures Valid() && ret == (if ipcfd >= 0 then ipcfd else IPC_ERR_NOT_OPENED)
      ensures ipcfd == if old(ipcfd) >= 0 then old(ipcfd) else fd
      ensures (View(), driver.View()) == LibOpen(old(View()), old(driver.View()), fd)
    {
      if ipcfd < 0 {
        ipcfd := fd;
        if ipcfd < 0 {
          return IPC_ERR_NOT_OPENED;
        }
        driver.Open(fd);
      }
      ret := ipcfd;
    }

    /** `ipc_msg_get`. */
    method MsgGet(key: int, fd: int) returns (rtn: int)
      requires Valid()
      modifies this, driver, driver.info.Repr
      ensures Valid()
      ensures (View(), driver.View(), rtn) == LibGet(old(View()), old(driver.View()), key, fd)
    {
      ghost var l, d := View(), driver.View();
      var device := Open(fd);
      ghost var l1, d1 := View(), driver.View();
      if device < 0 {
        OpenFails(l, d, key, fd, l1, d1);
        return -1;
      }
      rtn := GetQueue(key, l, d, fd);
    }

    /** The rest of `ipc_msg_get` on an open device: the GET call, and the count. */
    method GetQueue(key: int, ghost l: Lib, ghost d: Driver, ghost fd: int) returns (rtn: int)
      requires Valid() && ipcfd >= 0
      requires (l.ipcfd >= 0 ==> l.ipcfd in d.files) && LibOpen(l, d, fd) == (View(), driver.View())
      modifies this, driver, driver.info.Repr
      ensures Valid()
      ensures (View(), driver.View(), rtn) == LibGet(l, d, key, fd)
    {
      ghost var l1, d1 := View(), driver.View();
      rtn := driver.Get(ipcfd, key % TWO_16);
      if rtn >= 0 {
        msqcnt := msqcnt + 1;
      }
      GetComposes(l, d, key, fd, l1, d1, driver.View(), rtn);
    }

    /** `ipc_msg_rel`. */
    method MsgRel(msqid: UInt32) returns (rtn: int)
      requires Valid()
      modifies this, driver, driver.info.Repr
      ensures Valid()
      ensures (View(), driver.View(), rtn) == LibRel(old(View()), old(driver.View()), msqid)
    {
      if ipcfd < 0 {
        return -1;
      }
      rtn := driver.Rel(ipcfd, msqid);
      if rtn == 0 {
        CountDown();
      }
    }

    /** One queue less; at zero the device is closed. */
    method CountDown()
      requires Valid() && ipcfd >= 0
      modifies this, driver, driver.info.Repr
      ensures Valid()
      ensures (View(), driver.View())
           == if old(msqcnt) == 1 then (Lib(-1, 0), CloseFile(old(driver.View()), old(ipcfd)))
              else (old(View()).(msqcnt := old(msqcnt) - 1), old(driver.View()))
    {
      msqcnt := msqcnt - 1;
      if msqcnt == 0 {
        driver.Release(ipcfd);
        ipcfd := -1;
      }
    }
  }
}
