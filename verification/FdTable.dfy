/** The descriptor table of the event loop (src/common/event_loop.c): 256 hash chains that stand for one map. */
module FdTable {

  const FD_HASH_SIZE: nat := 256

  /** fd_hash: a 32-bit product, of which the low eight bits are kept. */
  function Hash(fd: int): (b: nat)
    ensures b < FD_HASH_SIZE
  {
    fd % 0x1_0000_0000 * 2654435761 % 0x1_0000_0000 % 256
  }

  lemma AddMultiple(x: int, k: int)
    ensures (x + 256 * k) % 256 == x % 256
  {
    var y := x + 256 * k;
    assert y == 256 * (x / 256 + k) + x % 256;
    ModUnique(y, x / 256 + k, x % 256);
  }

  lemma ModUnique(x: int, q: int, r: int)
    requires x == 256 * q + r && 0 <= r < 256
    ensures x % 256 == r
  {
    assert x / 256 <= q && q <= x / 256;
  }

  lemma LowByteOfWord(x: int)
    ensures x % 0x1_0000_0000 % 256 == x % 256
  {
    AddMultiple(x % 0x1_0000_0000, x / 0x1_0000_0000 * 0x100_0000);
  }

  // 2654435761 is 177 modulo 256.
  lemma HashIsLow(fd: int)
    ensures Hash(fd) == fd % 256 * 177 % 256
  {
    var f := fd % 0x1_0000_0000;
    LowByteOfWord(fd);
    LowByteOfWord(f * 2654435761);
    var r, q := f % 256, f / 256;
    assert f == r + 256 * q;
    assert f * 2654435761 == r * 177 + 256 * (r * 10368889 + q * 2654435761);
    AddMultiple(r * 177, r * 10368889 + q * 2654435761);
  }

  /** Two descriptors share a chain exactly when they agree modulo 256. */
  lemma CollisionTheorem(a: int, b: int)
    ensures Hash(a) == Hash(b) <==> a % 256 == b % 256
  {
    hide Hash;
    HashIsLow(a);
    HashIsLow(b);
    Undo(a % 256);
    Undo(b % 256);
  }

  // 177 * 81 is 1 modulo 256.
  lemma Undo(r: nat)
    requires r < 256
    ensures r * 177 % 256 * 81 % 256 == r
  {
    var low, q := r * 177 % 256, r * 177 / 256;
    assert low == r * 177 - 256 * q;
    ModUnique(low * 81, r * 56 - q * 81, r);
  }

  class FileContext {
    const fd: int
    var callback: nat
    var context: nat
    var next: FileContext?

    constructor (fd: int, callback: nat, context: nat)
      ensures this.fd == fd && this.callback == callback && this.context == context && next == null
    {
      this.fd, this.callback, this.context, next := fd, callback, context, null;
    }
  }

  ghost function At(chain: seq<FileContext>, i: nat): FileContext? {
    if i < |chain| then chain[i] else null
  }

  // The next fields of the contexts in the table.
  type Links = map<FileContext, FileContext?>

  // From head, the links visit exactly chain.
  ghost predicate Linked(head: FileContext?, chain: seq<FileContext>, links: Links) {
    && head == At(chain, 0)
    && forall i {:trigger chain[i]} :: 0 <= i < |chain| ==> chain[i] in links && links[chain[i]] == At(chain, i + 1)
  }

  ghost predicate AllLinked(heads: seq<FileContext?>, chains: seq<seq<FileContext>>, links: Links) {
    |heads| == |chains| && forall b {:trigger chains[b]} :: 0 <= b < |chains| ==> Linked(heads[b], chains[b], links)
  }

  // A context put in front of one chain leaves the others as they were.
  lemma InsertLinked(heads: seq<FileContext?>, chains: seq<seq<FileContext>>, links: Links, fc: FileContext, b: nat)
    requires AllLinked(heads, chains, links) && b < |heads| && fc !in links
    ensures AllLinked(heads[b := fc], chains[b := [fc] + chains[b]], links[fc := heads[b]])
  {
  }

  function Without(chain: seq<FileContext>, k: nat): seq<FileContext>
    requires k < |chain|
  {
    chain[..k] + chain[k + 1..]
  }

  // Unlinking the first context of a chain,
  lemma UnlinkFirst(heads: seq<FileContext?>, chains: seq<seq<FileContext>>, index: map<int, FileContext>,
                    links: Links, b: nat)
    requires AllLinked(heads, chains, links) && Indexed(chains, index) && b < |chains| && chains[b] != []
    ensures var fc := chains[b][0];
      AllLinked(heads[b := links[fc]], chains[b := Without(chains[b], 0)], links - {fc})
  {
    hide Hash;
  }

  lemma UnlinkInside(head: FileContext?, chain: seq<FileContext>, links: Links, k: nat)
    requires Linked(head, chain, links) && 0 < k < |chain|
    requires forall i, j :: 0 <= i < j < |chain| ==> chain[i] != chain[j]
    ensures Linked(head, Without(chain, k), links[chain[k - 1] := links[chain[k]]] - {chain[k]})
  {
  }

  lemma LinkedElsewhere(head: FileContext?, chain: seq<FileContext>, links: Links, prev: FileContext, v: FileContext?, fc: FileContext)
    requires Linked(head, chain, links) && prev !in chain && fc !in chain
    ensures Linked(head, chain, links[prev := v] - {fc})
  {
  }

  lemma Distinct(chains: seq<seq<FileContext>>, index: map<int, FileContext>, b: nat)
    requires Indexed(chains, index) && b < |chains|
    ensures forall i, j :: 0 <= i < j < |chains[b]| ==> chains[b][i] != chains[b][j]
  {
  }

  lemma OneBucket(chains: seq<seq<FileContext>>, index: map<int, FileContext>, b: nat, c: nat, n: FileContext)
    requires Indexed(chains, index) && b < |chains| && c < |chains| && b != c && n in chains[b]
    ensures n !in chains[c]
  {
    hide Hash;
  }

  // or a later one, leaves the other chains as they were, too.
  lemma UnlinkLater(heads: seq<FileContext?>, chains: seq<seq<FileContext>>, index: map<int, FileContext>,
                    links: Links, b: nat, k: nat)
    requires AllLinked(heads, chains, links) && Indexed(chains, index) && b < |chains| && 0 < k < |chains[b]|
    ensures var prev, fc := chains[b][k - 1], chains[b][k];
      fc in links && AllLinked(heads, chains[b := Without(chains[b], k)], links[prev := links[fc]] - {fc})
  {
    assert Linked(heads[b], chains[b], links) && chains[b][k] in links;
    hide Indexed, Without, Linked;
    assert forall i, j :: 0 <= i < j < |chains[b]| ==> chains[b][i] != chains[b][j] by {
      Distinct(chains, index, b);
    }
    UnlinkInside(heads[b], chains[b], links, k);
    var prev, fc := chains[b][k - 1], chains[b][k];
    forall c: nat {:trigger chains[c]} | c < |chains| && c != b
      ensures Linked(heads[c], chains[c], links[prev := links[fc]] - {fc})
    {
      OneBucket(chains, index, b, c, prev);
      OneBucket(chains, index, b, c, fc);
      LinkedElsewhere(heads[c], chains[c], links, prev, links[fc], fc);
    }
  }

  // Each context sits once, in the bucket of its descriptor, and the index is exactly what the chains hold.
  ghost predicate Indexed(chains: seq<seq<FileContext>>, index: map<int, FileContext>) {
    && |chains| == FD_HASH_SIZE
    && (forall b, i {:trigger chains[b][i]} :: 0 <= b < |chains| && 0 <= i < |chains[b]| ==>
      Hash(chains[b][i].fd) == b && chains[b][i].fd in index && index[chains[b][i].fd] == chains[b][i])
    && (forall fd {:trigger index[fd]} :: fd in index ==> index[fd].fd == fd && index[fd] in chains[Hash(fd)])
    && (forall b, i, j {:trigger chains[b][i], chains[b][j]} ::
      0 <= b < |chains| && 0 <= i < j < |chains[b]| ==> chains[b][i] != chains[b][j])
  }

  /** A descriptor is in the table at most once, and only in its own bucket. */
  lemma FdOnce(chains: seq<seq<FileContext>>, index: map<int, FileContext>, b: nat, i: nat, c: nat, j: nat)
    requires Indexed(chains, index) && b < |chains| && i < |chains[b]| && c < |chains| && j < |chains[c]|
    requires chains[b][i].fd == chains[c][j].fd
    ensures b == c == Hash(chains[b][i].fd) && i == j
  {
    hide Hash;
    assert chains[b][i] == chains[c][j];
    Distinct(chains, index, b);
  }

  lemma InsertIndexed(chains: seq<seq<FileContext>>, index: map<int, FileContext>, fc: FileContext)
    requires Indexed(chains, index) && fc.fd !in index
    ensures Indexed(chains[Hash(fc.fd) := [fc] + chains[Hash(fc.fd)]], index[fc.fd := fc])
  {
    hide Hash;
  }

  lemma RemoveIndexed(chains: seq<seq<FileContext>>, index: map<int, FileContext>, b: nat, k: nat)
    requires Indexed(chains, index) && b < |chains| && k < |chains[b]|
    ensures Indexed(chains[b := Without(chains[b], k)], index - {chains[b][k].fd})
  {
    hide Hash;
  }

  // Pointers: 0 is NULL.
  datatype Handler = Handler(callback: nat, context: nat)

  datatype Outcome = Success | EInval | EExist | ENoEnt | EpollFailed

  // epoll is whether the epoll_ctl call succeeds.
  datatype Op =
    | Add(fd: int, handler: Handler, epoll: bool)
    | Mod(fd: int, handler: Handler, epoll: bool)
    | Del(fd: int, epoll: bool)

  /** What an operation answers, on the map. */
  function Answer(m: map<int, Handler>, op: Op): Outcome {
    if op.fd < 0 || (!op.Del? && op.handler.callback == 0) then EInval
    else if op.Add? && op.fd in m then EExist
    else if !op.Add? && op.fd !in m then ENoEnt
    else if !op.Del? && !op.epoll then EpollFailed
    else Success
  }

  /** And what it does to the map: a failed epoll call undoes an Add but not a Mod. */
  function Update(m: map<int, Handler>, op: Op): map<int, Handler> {
    var r := Answer(m, op);
    match op
    case Add(fd, handler, _) => if r == Success then m[fd := handler] else m
    case Mod(fd, handler, _) => if r == Success || r == EpollFailed then m[fd := handler] else m
    case Del(fd, _) => if r == Success then m - {fd} else m
  }

  /** The descriptors registered with the kernel, after an operation. */
  function Registered(m: map<int, Handler>, reg: set<int>, op: Op): set<int> {
    if Answer(m, op) != Success then reg
    else if !op.Del? then reg + {op.fd}
    else if op.epoll then reg - {op.fd}
    else reg
  }

  function RegisteredAll(m: map<int, Handler>, reg: set<int>, ops: seq<Op>): set<int> {
    if ops == [] then reg
    else
      var init := ops[..|ops| - 1];
      Registered(UpdateAll(m, init), RegisteredAll(m, reg, init), ops[|ops| - 1])
  }

  function UpdateAll(m: map<int, Handler>, ops: seq<Op>): map<int, Handler> {
    if ops == [] then m else Update(UpdateAll(m, ops[..|ops| - 1]), ops[|ops| - 1])
  }

  class EventLoop {
    const table: array<FileContext?>
    ghost var chains: seq<seq<FileContext>>
    ghost var index: map<int, FileContext>
    ghost var links: Links
    ghost var interest: map<int, FileContext>   // the kernel's side: the context each registered descriptor points to

    ghost predicate Valid()
      reads `chains, `index, `links, table, links.Keys
    {
      && table.Length == FD_HASH_SIZE && Indexed(chains, index)
      && (forall fd :: fd in index ==> index[fd] in links)
      && (forall n :: n in links ==> n.next == links[n])
      && AllLinked(table[..], chains, links)
    }

    // Every pointer the kernel may hand back is to the context in the table.
    ghost predicate NoDangling()
      reads `index, `interest
    {
      forall fd :: fd in interest ==> fd in index && interest[fd] == index[fd]
    }

    // Where the table has a context for a registered descriptor, the kernel points to it.
    ghost predicate Pointers()
      reads `index, `interest
    {
      forall fd :: fd in interest && fd in index ==> interest[fd] == index[fd]
    }

    // The map the table stands for.
    ghost function Contents(): map<int, Handler>
      requires Valid()
      reads `chains, `index, `links, table, links.Keys
    {
      map fd | fd in index :: Handler(index[fd].callback, index[fd].context)
    }

    constructor ()
      ensures Valid() && Contents() == map[] && fresh(table) && links == map[] && interest == map[]
    {
      table := new FileContext?[FD_HASH_SIZE](_ => null);
      chains, index, links, interest := seq(FD_HASH_SIZE, _ => []), map[], map[], map[];
    }

    // find_file_context
    method Find(fd: int) returns (fc: FileContext?)
      requires Valid()
      ensures fc == if fd in index then index[fd] else null
      ensures fc != null <==> fd in Contents()
      ensures fc != null ==> Contents()[fd] == Handler(fc.callback, fc.context)
    {
      hide Hash;
      var hash := Hash(fd);
      ghost var chain, i := chains[hash], 0;
      fc := table[hash];
      while fc != null
        invariant 0 <= i <= |chain| && fc == At(chain, i)
        invariant forall j :: 0 <= j < i ==> chain[j].fd != fd
        decreases |chain| - i
      {
        if fc.fd == fd {
          return;
        }
        fc, i := fc.next, i + 1;
      }
    }
  
    // insert_file_context
    method Insert(fc: FileContext) returns (ok: bool)
      requires Valid() && fc !in links
      modifies `chains, `index, `links, table, fc`next
      ensures Valid() && ok == (fc.fd !in old(index))
      ensures index == if ok then old(index)[fc.fd := fc] else old(index)
      ensures links == if ok then old(links)[fc := old(table[Hash(fc.fd)])] else old(links)
      ensures table[..] == if ok then old(table[..])[Hash(fc.fd) := fc] else old(table[..])
      ensures chains == if ok then old(chains)[Hash(fc.fd) := [fc] + old(chains)[Hash(fc.fd)]] else old(chains)
    {
      hide Hash, Indexed, AllLinked;
      Sized(chains, index);
      var found := Find(fc.fd);
      if found != null {
        return false;
      }
      var hash := Hash(fc.fd);
      InsertIndexed(chains, index, fc);
      InsertLinked(table[..], chains, links, fc, hash);
      chains, index, links := chains[hash := [fc] + chains[hash]], index[fc.fd := fc], links[fc := table[hash]];
      fc.next := table[hash];
      table[hash] := fc;
      assert table[..] == old(table[..])[hash := fc];
      return true;
    }

    // *pp = fc->next
    method Unlink(prev: FileContext?, fc: FileContext, ghost k: nat)
      requires Valid() && k < |chains[Hash(fc.fd)]| && fc == chains[Hash(fc.fd)][k]
      requires prev == if k == 0 then null else chains[Hash(fc.fd)][k - 1]
      modifies `chains, `index, `links, table, links.Keys`next
      ensures Valid() && index == old(index) - {fc.fd} && links.Keys == old(links).Keys - {fc}
      ensures chains == old(chains)[Hash(fc.fd) := Without(old(chains)[Hash(fc.fd)], k)]
    {
      hide Hash, Indexed, AllLinked, Without;
      var hash := Hash(fc.fd);
      Sized(chains, index);
      InBucket(table[..], chains, index, links, fc.fd);
      Distinct(chains, index, hash);
      OwnKey(chains, index);
      RemoveIndexed(chains, index, hash, k);
      assert prev != null ==> prev in links && prev != fc;
      chains, index := chains[hash := Without(chains[hash], k)], index - {fc.fd};
      if prev == null {
        UnlinkFirst(table[..], old(chains), old(index), links, hash);
        table[hash] := fc.next;
        links := links - {fc};
        assert table[..] == old(table[..])[hash := fc.next];
      } else {
        UnlinkLater(table[..], old(chains), old(index), links, hash, k);
        prev.next := fc.next;
        links := links[prev := fc.next] - {fc};
      }
      fc.next := null;
    }

    /** remove_file_context: prev is the context whose next field pp points at, or null for the table's own slot. */
    method Remove(fd: int) returns (fc: FileContext?, ghost k: nat)
      requires Valid()
      modifies `chains, `index, `links, table, links.Keys`next
      ensures Valid() && fc == if fd in old(index) then old(index)[fd] else null
      ensures index == old(index) - {fd} && links.Keys == old(links).Keys - {fc}
      ensures Contents() == old(Contents()) - {fd}
      ensures fc == null ==> chains == old(chains)
      ensures fc != null ==> k < |old(chains)[Hash(fd)]| && old(chains)[Hash(fd)][k] == fc
      ensures fc != null ==> chains == old(chains)[Hash(fd) := Without(old(chains)[Hash(fd)], k)]
    {
      hide Hash, Indexed, AllLinked;
      Sized(chains, index);
      InBucket(table[..], chains, index, links, fd);
      var hash := Hash(fd);
      var prev: FileContext?;
      ghost var chain := chains[hash];
      prev, fc, k := null, table[hash], 0;
      while fc != null
        invariant 0 <= k <= |chain| && fc == At(chain, k) && prev == (if k == 0 then null else At(chain, k - 1))
        invariant forall j :: 0 <= j < k ==> chain[j].fd != fd
        decreases |chain| - k
      {
        if fc.fd == fd {
          Unlink(prev, fc, k);
          return;
        }
        prev, fc, k := fc, fc.next, k + 1;
      }
    }

    // Removing the context just inserted restores its chain.
    method TakeBack(fc: FileContext, ghost rest: seq<FileContext>)
      requires Valid() && chains[Hash(fc.fd)] == [fc] + rest
      modifies `chains, `index, `links, table, links.Keys`next
      ensures Valid() && chains == old(chains)[Hash(fc.fd) := rest] && Contents() == old(Contents()) - {fc.fd}
      ensures index == old(index) - {fc.fd} && links.Keys == old(links).Keys - {fc}
    {
      hide Hash, Indexed, AllLinked;
      Sized(chains, index);
      Distinct(chains, index, Hash(fc.fd));
      InBucket(table[..], chains, index, links, fc.fd);
      assert chains[Hash(fc.fd)][0] == fc;
      var removed, k := Remove(fc.fd);
      assert k == 0 && Without([fc] + rest, 0) == rest;
    }

    lemma Shape()
      requires Valid()
      ensures |chains| == FD_HASH_SIZE && Contents().Keys == index.Keys
      ensures forall fd :: fd in index ==> index[fd].fd == fd && index[fd] in links
    {
    }

    lemma DanglingIff()
      requires Pointers()
      ensures NoDangling() <==> interest.Keys <= index.Keys
    {
      if NoDangling() {
        forall fd | fd in interest.Keys ensures fd in index.Keys { assert fd in interest; }
      }
      if interest.Keys <= index.Keys {
        forall fd | fd in interest ensures fd in index { assert fd in interest.Keys; }
      }
    }

    // A new context for this descriptor, in the table unless there is one already.
    method InsertNew(fd: int, handler: Handler) returns (fc: FileContext, ok: bool)
      requires Valid()
      modifies `chains, `index, `links, table
      ensures Valid() && fresh(fc) && fc.fd == fd && ok == (fd !in old(index))
      ensures index == if ok then old(index)[fd := fc] else old(index)
      ensures links.Keys == if ok then old(links).Keys + {fc} else old(links).Keys
      ensures chains == if ok then old(chains)[Hash(fd) := [fc] + old(chains)[Hash(fd)]] else old(chains)
      ensures Contents() == if ok then old(Contents())[fd := handler] else old(Contents())
    {
      hide Hash, Indexed, AllLinked;
      fc := new FileContext(fd, handler.callback, handler.context);
      ok := Insert(fc);
    }

    // Whatever came before, the new context is registered with the kernel, or taken out again.
    method Register(fc: FileContext, epoll: bool, ghost rest: seq<FileContext>)
      requires Valid() && chains[Hash(fc.fd)] == [fc] + rest
      modifies this, table, links.Keys`next
      ensures Valid() && (epoll ==> index == old(index) && chains == old(chains) && links == old(links))
      ensures epoll ==> interest == old(interest)[fc.fd := fc] && Contents() == old(Contents())
      ensures !epoll ==> interest == old(interest) && chains == old(chains)[Hash(fc.fd) := rest]
      ensures !epoll ==> index == old(index) - {fc.fd} && links.Keys == old(links).Keys - {fc}
      ensures !epoll ==> Contents() == old(Contents()) - {fc.fd}
    {
      hide Hash, Indexed, AllLinked;
      if epoll {
        interest := interest[fc.fd := fc];
      } else {
        TakeBack(fc, rest);
      }
    }

    /** loop_add_fd: when epoll_ctl fails the context is taken out again, and the chains are what they were. */
    method AddFd(fd: int, handler: Handler, epoll: bool) returns (r: Outcome)
      requires Valid()
      modifies this, table, links.Keys`next
      ensures Valid() && r == Answer(old(Contents()), Add(fd, handler, epoll))
      ensures Contents() == Update(old(Contents()), Add(fd, handler, epoll))
      ensures fresh(links.Keys - old(links).Keys)
      ensures r != Success ==> chains == old(chains) && links.Keys == old(links).Keys
      ensures r != Success ==> index == old(index) && interest == old(interest)
      ensures r == Success ==> fd in index && interest == old(interest)[fd := index[fd]]
      ensures interest.Keys == Registered(old(Contents()), old(interest).Keys, Add(fd, handler, epoll))
      ensures (old(NoDangling()) ==> NoDangling()) && (old(Pointers()) ==> Pointers())
    {
      hide Hash, Valid, Contents;
      Shape();
      if fd < 0 || handler.callback == 0 {
        return EInval;
      }
      var fc, ok := InsertNew(fd, handler);
      if !ok {
        return EExist;
      }
      Register(fc, epoll, old(chains)[Hash(fd)]);
      if !epoll {
        assert index == old(index) && old(Contents())[fd := handler] - {fd} == old(Contents());
      }
      return if epoll then Success else EpollFailed;
    }

    method SetHandler(fc: FileContext, handler: Handler)
      requires Valid() && fc.fd in index && index[fc.fd] == fc
      modifies fc`callback, fc`context
      ensures Valid() && Contents() == old(Contents())[fc.fd := handler]
    {
      hide Hash, Indexed, AllLinked;
      OwnKey(chains, index);
      fc.callback, fc.context := handler.callback, handler.context;
      forall other | other in index
        ensures Contents()[other] == old(Contents())[fc.fd := handler][other]
      {
        assert index[other] == fc ==> other == fc.fd;
      }
    }

    /** loop_mod_fd: the handler is replaced before epoll_ctl is asked. */
    method ModFd(fd: int, handler: Handler, epoll: bool) returns (r: Outcome)
      requires Valid()
      modifies `interest, links.Keys`callback, links.Keys`context
      ensures Valid() && r == Answer(old(Contents()), Mod(fd, handler, epoll))
      ensures Contents() == Update(old(Contents()), Mod(fd, handler, epoll))
      ensures index == old(index) && links == old(links)
      ensures interest.Keys == Registered(old(Contents()), old(interest).Keys, Mod(fd, handler, epoll))
      ensures (old(NoDangling()) ==> NoDangling()) && (old(Pointers()) ==> Pointers())
    {
      hide Hash, Valid, Contents;
      Shape();
      if fd < 0 || handler.callback == 0 {
        return EInval;
      }
      var fc := Find(fd);
      if fc == null {
        return ENoEnt;
      }
      SetHandler(fc, handler);
      if !epoll {
        return EpollFailed;
      }
      interest := interest[fd := fc];
      return Success;
    }

    /** loop_del_fd: a failing epoll_ctl is only logged.  It leaves the kernel with a pointer to the freed context,
        if and only if the descriptor was registered there. */
    method DelFd(fd: int, epoll: bool) returns (r: Outcome)
      requires Valid()
      modifies this, table, links.Keys`next
      ensures Valid() && r == Answer(old(Contents()), Del(fd, epoll))
      ensures Contents() == Update(old(Contents()), Del(fd, epoll))
      ensures links.Keys <= old(links).Keys
      ensures interest.Keys == Registered(old(Contents()), old(interest).Keys, Del(fd, epoll))
      ensures old(Pointers()) ==> Pointers()
      ensures old(NoDangling()) && r != Success ==> NoDangling()
      ensures old(NoDangling()) && r == Success ==> (NoDangling() <==> epoll || fd !in old(interest))
    {
      hide Hash, Indexed, AllLinked;
      if fd < 0 {
        return EInval;
      }
      var fc, k := Remove(fd);
      if fc == null {
        return ENoEnt;
      }
      if epoll {
        interest := interest - {fd};
      }
      return Success;
    }

    method Do(op: Op) returns (r: Outcome)
      requires Valid()
      modifies this, table, links.Keys
      ensures Valid() && r == Answer(old(Contents()), op) && Contents() == Update(old(Contents()), op)
      ensures fresh(links.Keys - old(links).Keys)
      ensures interest.Keys == Registered(old(Contents()), old(interest).Keys, op)
      ensures old(Pointers()) ==> Pointers()
    {
      hide Answer, Update, Registered, Indexed, AllLinked;
      match op {
        case Add(fd, handler, epoll) => r := AddFd(fd, handler, epoll);
        case Mod(fd, handler, epoll) => r := ModFd(fd, handler, epoll);
        case Del(fd, epoll) => r := DelFd(fd, epoll);
      }
    }
  }

  /** Each answer, by what is asked and what is there. */
  lemma AnswerTable(m: map<int, Handler>, op: Op)
    ensures Answer(m, op) == EInval <==> op.fd < 0 || (!op.Del? && op.handler.callback == 0)
    ensures Answer(m, op) == EExist ==> op.Add? && op.fd in m
    ensures Answer(m, op) == ENoEnt ==> !op.Add? && op.fd !in m
    ensures Answer(m, op) == EpollFailed ==> !op.Del? && !op.epoll
    ensures Answer(m, op) == Success <==>
      op.fd >= 0 && (op.Del? || op.handler.callback != 0) && (op.Add? <==> op.fd !in m) && (op.Del? || op.epoll)
  {
  }

  /** An operation touches no other descriptor; a successful one leaves its own with the handler, or without. */
  lemma UpdateRule(m: map<int, Handler>, op: Op, fd: int)
    ensures fd != op.fd ==> (fd in Update(m, op) <==> fd in m) && (fd in m ==> Update(m, op)[fd] == m[fd])
    ensures Answer(m, op) == Success ==>
      if op.Del? then op.fd !in Update(m, op) else op.fd in Update(m, op) && Update(m, op)[op.fd] == op.handler
  {
  }

  /** A delete undoes a successful add.  A failed operation changes the map if and only if it is a Mod with
      another handler whose epoll call fails. */
  lemma UndoTheorem(m: map<int, Handler>, op: Op)
    ensures op.Add? && Answer(m, op) == Success ==> UpdateAll(m, [op, Del(op.fd, true)]) == m
    ensures Answer(m, op) != Success ==>
      (Update(m, op) != m <==> op.Mod? && Answer(m, op) == EpollFailed && m[op.fd] != op.handler)
  {
    if op.Mod? && op.fd in m {
      assert m[op.fd := op.handler][op.fd] == op.handler;
      assert m[op.fd] == op.handler ==> m[op.fd := op.handler] == m;
    }
    assert [op, Del(op.fd, true)][..1] == [op] && [op][..0] == [];
    assert UpdateAll(m, [op]) == Update(m, op);
    assert UpdateAll(m, [op, Del(op.fd, true)]) == Update(UpdateAll(m, [op]), Del(op.fd, true));
  }

  /** It happens: a Mod answered with failure that leaves the new handler in place. */
  lemma ModKeepsHandler(fd: int, before: Handler, after: Handler)
    requires fd >= 0 && after.callback != 0 && before != after
    ensures var m, op := map[fd := before], Mod(fd, after, false);
      Answer(m, op) == EpollFailed && Update(m, op) == map[fd := after] != m
  {
    assert map[fd := before][fd := after] == map[fd := after];
    assert map[fd := after][fd] != map[fd := before][fd];
  }

  /** Any sequence of operations on a table is the same sequence on the map; and afterwards the kernel holds a pointer to
      a freed context if and only if a descriptor is registered on the map's side that the map has not. */
  method Perform(loop: EventLoop, ops: seq<Op>) returns (answers: seq<Outcome>)
    requires loop.Valid()
    modifies loop, loop.table, loop.links.Keys
    ensures loop.Valid() && loop.Contents() == UpdateAll(old(loop.Contents()), ops)
    ensures |answers| == |ops|
    ensures forall i :: 0 <= i < |ops| ==> answers[i] == Answer(UpdateAll(old(loop.Contents()), ops[..i]), ops[i])
    ensures old(loop.Pointers()) ==> loop.Pointers()
    ensures old(loop.Pointers()) ==> (loop.NoDangling() <==>
      RegisteredAll(old(loop.Contents()), old(loop.interest).Keys, ops) <= UpdateAll(old(loop.Contents()), ops).Keys)
  {
    hide Answer, Update, Registered, EventLoop.Valid, EventLoop.Contents, EventLoop.Pointers, EventLoop.NoDangling;
    answers := [];
    ghost var m, reg := loop.Contents(), loop.interest.Keys;
    for i := 0 to |ops|
      invariant loop.Valid() && (old(loop.Pointers()) ==> loop.Pointers()) && fresh(loop.links.Keys - old(loop.links).Keys)
      invariant loop.Contents() == UpdateAll(m, ops[..i]) && loop.interest.Keys == RegisteredAll(m, reg, ops[..i])
      invariant |answers| == i
      invariant forall j :: 0 <= j < i ==> answers[j] == Answer(UpdateAll(m, ops[..j]), ops[j])
    {
      assert ops[..i + 1][..i] == ops[..i];
      var r := loop.Do(ops[i]);
      answers := answers + [r];
    }
    assert ops[..|ops|] == ops;
    loop.Shape();
    if old(loop.Pointers()) { loop.DanglingIff(); }
  }

  /** While every kernel delete succeeds, nothing is registered that the map has not. */
  lemma {:induction false} RegisteredKnown(m: map<int, Handler>, reg: set<int>, ops: seq<Op>)
    requires reg <= m.Keys && forall i :: 0 <= i < |ops| && ops[i].Del? ==> ops[i].epoll
    ensures RegisteredAll(m, reg, ops) <= UpdateAll(m, ops).Keys
  {
    if ops != [] {
      RegisteredKnown(m, reg, ops[..|ops| - 1]);
    }
  }

  /** It happens: a descriptor added, then deleted while the kernel refuses. */
  method DanglingInstance(fd: int, handler: Handler) returns (loop: EventLoop)
    requires fd >= 0 && handler.callback != 0
    ensures loop.Valid() && loop.Contents() == map[] && fd in loop.interest && !loop.NoDangling()
  {
    hide Indexed, AllLinked, Hash;
    loop := new EventLoop();
    var added := loop.AddFd(fd, handler, true);
    assert loop.Contents() == map[fd := handler] && added == Success;
    assert loop.NoDangling() && fd in loop.interest;
    var deleted := loop.DelFd(fd, false);
    assert map[fd := handler] - {fd} == map[];
  }

  lemma Sized(chains: seq<seq<FileContext>>, index: map<int, FileContext>)
    requires Indexed(chains, index)
    ensures |chains| == FD_HASH_SIZE
  {
  }

  lemma OwnKey(chains: seq<seq<FileContext>>, index: map<int, FileContext>)
    requires Indexed(chains, index)
    ensures forall other :: other in index ==> index[other].fd == other
  {
  }

  // The chain to search for a descriptor, and what finding it there or not means.
  lemma InBucket(heads: seq<FileContext?>, chains: seq<seq<FileContext>>, index: map<int, FileContext>, links: Links, fd: int)
    requires Indexed(chains, index) && AllLinked(heads, chains, links)
    ensures Linked(heads[Hash(fd)], chains[Hash(fd)], links)
    ensures forall n :: n in chains[Hash(fd)] && n.fd == fd ==> fd in index && index[fd] == n
    ensures fd in index ==> index[fd] in chains[Hash(fd)] && index[fd].fd == fd
  {
    hide Hash;
  }
}
