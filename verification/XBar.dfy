/** The read crossbars of src/AXI4_Lite_Adapter.bsv: any number of masters and slaves,
    one response at a time to the oldest request on both sides. */
module XBar {
  import opened Wrappers

  const DEPTH := 4

  datatype Transfer<R> = Transfer(master: nat, slave: nat, req: R)

  /** Where the requests of a master went, in the order they were sent. */
  function SentTo<R>(log: seq<Transfer<R>>, i: nat): seq<nat> {
    if log == [] then [] else (if log[0].master == i then [log[0].slave] else []) + SentTo(log[1..], i)
  }

  /** Where the requests at a slave came from. */
  function CameFrom<R>(log: seq<Transfer<R>>, j: nat): seq<nat> {
    if log == [] then [] else (if log[0].slave == j then [log[0].master] else []) + CameFrom(log[1..], j)
  }

  function OfMaster<R>(log: seq<Transfer<R>>, i: nat): seq<R> {
    if log == [] then [] else (if log[0].master == i then [log[0].req] else []) + OfMaster(log[1..], i)
  }

  function AtSlave<R>(log: seq<Transfer<R>>, j: nat): seq<R> {
    if log == [] then [] else (if log[0].slave == j then [log[0].req] else []) + AtSlave(log[1..], j)
  }

  /** The log without the oldest transfer of master `i`. */
  function Without<R>(log: seq<Transfer<R>>, i: nat): seq<Transfer<R>> {
    if log == [] then [] else if log[0].master == i then log[1..] else [log[0]] + Without(log[1..], i)
  }

  lemma {:induction false} AppendMaster<R>(log: seq<Transfer<R>>, t: Transfer<R>, k: nat)
    ensures SentTo(log + [t], k) == SentTo(log, k) + if t.master == k then [t.slave] else []
    ensures OfMaster(log + [t], k) == OfMaster(log, k) + if t.master == k then [t.req] else []
    decreases |log|
  {
    if log == [] {
      assert (log + [t])[1..] == [];
    } else {
      AppendMaster(log[1..], t, k);
      assert (log + [t])[1..] == log[1..] + [t];
    }
  }

  lemma {:induction false} CameFromHead<R>(log: seq<Transfer<R>>, k: nat)
    ensures log == [] ==> CameFrom(log, k) == []
    ensures log != [] ==>
              CameFrom(log, k) == (if log[0].slave == k then [log[0].master] else []) + CameFrom(log[1..], k)
  {
  }

  lemma {:induction false} AppendCameFrom<R>(log: seq<Transfer<R>>, t: Transfer<R>, k: nat)
    ensures CameFrom(log + [t], k) == CameFrom(log, k) + if t.slave == k then [t.master] else []
    decreases |log|
  {
    hide CameFrom;
    CameFromHead(log, k);
    CameFromHead(log + [t], k);
    CameFromHead((log + [t])[1..], k);
    if log == [] {
      assert (log + [t])[1..] == [];
    } else {
      assert (log + [t])[0] == log[0] && (log + [t])[1..] == log[1..] + [t];
      AppendCameFrom(log[1..], t, k);
    }
  }

  lemma {:induction false} AtSlaveHead<R>(log: seq<Transfer<R>>, k: nat)
    ensures log == [] ==> AtSlave(log, k) == []
    ensures log != [] ==> AtSlave(log, k) == (if log[0].slave == k then [log[0].req] else []) + AtSlave(log[1..], k)
  {
  }

  lemma {:induction false} AppendAtSlave<R>(log: seq<Transfer<R>>, t: Transfer<R>, k: nat)
    ensures AtSlave(log + [t], k) == AtSlave(log, k) + if t.slave == k then [t.req] else []
    decreases |log|
  {
    hide AtSlave;
    AtSlaveHead(log, k);
    AtSlaveHead(log + [t], k);
    AtSlaveHead((log + [t])[1..], k);
    if log == [] {
      assert (log + [t])[1..] == [];
    } else {
      assert (log + [t])[0] == log[0] && (log + [t])[1..] == log[1..] + [t];
      AppendAtSlave(log[1..], t, k);
    }
  }

  lemma {:induction false} AppendSlave<R>(log: seq<Transfer<R>>, t: Transfer<R>, k: nat)
    ensures CameFrom(log + [t], k) == CameFrom(log, k) + if t.slave == k then [t.master] else []
    ensures AtSlave(log + [t], k) == AtSlave(log, k) + if t.slave == k then [t.req] else []
  {
    hide *;
    AppendCameFrom(log, t, k);
    AppendAtSlave(log, t, k);
  }

  /** When master `i` waits for slave `j` and slave `j` serves master `i` next, it is
      for the same transfer. */
  lemma {:induction false} SameTransfer<R>(log: seq<Transfer<R>>, i: nat, j: nat)
    requires SentTo(log, i) != [] && SentTo(log, i)[0] == j
    requires CameFrom(log, j) != [] && CameFrom(log, j)[0] == i
    ensures OfMaster(log, i) != [] && AtSlave(log, j) != [] && OfMaster(log, i)[0] == AtSlave(log, j)[0]
    ensures SentTo(Without(log, i), i) == SentTo(log, i)[1..] && OfMaster(Without(log, i), i) == OfMaster(log, i)[1..]
    ensures CameFrom(Without(log, i), j) == CameFrom(log, j)[1..] && AtSlave(Without(log, i), j) == AtSlave(log, j)[1..]
    decreases |log|
  {
    if log[0].master != i {
      SameTransfer(log[1..], i, j);
      assert ([log[0]] + Without(log[1..], i))[1..] == Without(log[1..], i);
    }
  }

  /** The other masters and slaves see no difference. */
  lemma {:induction false} OthersSame<R>(log: seq<Transfer<R>>, i: nat, j: nat, k: nat)
    requires SentTo(log, i) != [] && SentTo(log, i)[0] == j
    ensures k != i ==> SentTo(Without(log, i), k) == SentTo(log, k) && OfMaster(Without(log, i), k) == OfMaster(log, k)
    ensures k != j ==> CameFrom(Without(log, i), k) == CameFrom(log, k)
    ensures k != j ==> AtSlave(Without(log, i), k) == AtSlave(log, k)
    decreases |log|
  {
    if log[0].master != i {
      OthersSame(log[1..], i, j, k);
      assert ([log[0]] + Without(log[1..], i))[1..] == Without(log[1..], i);
    }
  }

  lemma {:induction false} Members<R>(log: seq<Transfer<R>>, i: nat)
    ensures forall t :: t in Without(log, i) ==> t in log
    decreases |log|
  {
    if log != [] && log[0].master != i {
      Members(log[1..], i);
    }
  }

  lemma {:induction false} Heads<R>(log: seq<Transfer<R>>, masters: nat, slaves: nat, k: nat)
    requires forall t :: t in log ==> t.master < masters && t.slave < slaves
    ensures SentTo(log, k) != [] ==> SentTo(log, k)[0] < slaves
    ensures CameFrom(log, k) != [] ==> CameFrom(log, k)[0] < masters
    decreases |log|
  {
    if log != [] {
      assert log[0] in log;
      Heads(log[1..], masters, slaves, k);
    }
  }

  /** The queues of a master agree with the outstanding transfers. */
  predicate MasterSide<R(==)>(log: seq<Transfer<R>>, i: nat, receiveRspFrom: seq<nat>, request: Option<R>,
        asked: seq<R>) {
    && receiveRspFrom == SentTo(log, i) && |receiveRspFrom| <= DEPTH
    && asked == OfMaster(log, i) + if request.Some? then [request.value] else []
  }

  predicate SlaveSide<R(==)>(log: seq<Transfer<R>>, j: nat, sendRspTo: seq<nat>, atSlave: seq<R>) {
    sendRspTo == CameFrom(log, j) && atSlave == AtSlave(log, j) && |sendRspTo| <= DEPTH
  }

  lemma {:induction false} MasterSends<R>(log: seq<Transfer<R>>, t: Transfer<R>, k: nat, from: seq<nat>,
        request: Option<R>, asked: seq<R>)
    requires MasterSide(log, k, from, request, asked) && (t.master == k ==> request == Some(t.req) && |from| < DEPTH)
    ensures if t.master == k then MasterSide(log + [t], k, from + [t.slave], None, asked)
          else MasterSide(log + [t], k, from, request, asked)
  {
    AppendMaster(log, t, k);
  }

  lemma {:induction false} SlaveGets<R>(log: seq<Transfer<R>>, t: Transfer<R>, k: nat, to: seq<nat>, at: seq<R>)
    requires SlaveSide(log, k, to, at) && (t.slave == k ==> |to| < DEPTH)
    ensures if t.slave == k then SlaveSide(log + [t], k, to + [t.master], at + [t.req])
          else SlaveSide(log + [t], k, to, at)
  {
    AppendSlave(log, t, k);
  }

  /** The heads of the two queues of a transfer that is answered. */
  lemma {:induction false} Answered<R>(log: seq<Transfer<R>>, i: nat, j: nat, from: seq<nat>, request: Option<R>,
        asked: seq<R>, to: seq<nat>, at: seq<R>)
    requires MasterSide(log, i, from, request, asked) && SlaveSide(log, j, to, at) && from != [] && to != []
    requires from[0] == j && to[0] == i
    ensures SentTo(log, i) != [] && OfMaster(log, i) != [] && at != [] && asked != []
    ensures at[0] == asked[0] == OfMaster(log, i)[0]
    ensures MasterSide(Without(log, i), i, from[1..], request, asked[1..])
    ensures SlaveSide(Without(log, i), j, to[1..], at[1..])
  {
    SameTransfer(log, i, j);
  }

  lemma {:induction false} MasterWaits<R>(log: seq<Transfer<R>>, i: nat, k: nat, from: seq<nat>, request: Option<R>,
        asked: seq<R>)
    requires MasterSide(log, k, from, request, asked) && SentTo(log, i) != [] && k != i
    ensures MasterSide(Without(log, i), k, from, request, asked)
  {
    OthersSame(log, i, SentTo(log, i)[0], k);
  }

  lemma {:induction false} SlaveWaits<R>(log: seq<Transfer<R>>, i: nat, k: nat, to: seq<nat>, at: seq<R>)
    requires SlaveSide(log, k, to, at) && SentTo(log, i) != [] && SentTo(log, i)[0] != k
    ensures SlaveSide(Without(log, i), k, to, at)
  {
    OthersSame(log, i, SentTo(log, i)[0], k);
  }

  class Crossbar<R(0)> {
    const masters: nat
    const slaves: nat
    const dispatch: R -> nat
    var requests: seq<Option<R>>         // one-place queues of accepted requests
    var receiveRspFrom: seq<seq<nat>>    // per master, the slaves to hear from
    var sendRspTo: seq<seq<nat>>         // per slave, the masters to answer
    var atSlave: seq<seq<R>>             // what each slave has yet to answer, in order
    ghost var log: seq<Transfer<R>>      // all requests sent and not yet answered
    ghost var asked: seq<seq<R>>         // per master, the requests not yet answered

    function Chosen(r: R): nat {
      if slaves == 1 then 0 else dispatch(r)
    }

    ghost predicate Sizes()
      reads this
    {
      && 0 < masters && 0 < slaves
      && |requests| == |receiveRspFrom| == |asked| == masters && |sendRspTo| == |atSlave| == slaves
    }

    ghost predicate Valid()
      reads this
    {
      && Sizes()
      && (forall t :: t in log ==> t.master < masters && t.slave < slaves && t.slave == Chosen(t.req))
      && (forall i :: 0 <= i < masters ==> MasterSide(log, i, receiveRspFrom[i], requests[i], asked[i]))
      && (forall j :: 0 <= j < slaves ==> SlaveSide(log, j, sendRspTo[j], atSlave[j]))
    }

    constructor (m: nat, s: nat, d: R -> nat)
      requires 0 < m && 0 < s
      ensures Valid() && masters == m && slaves == s && dispatch == d && log == []
    {
      masters, slaves, dispatch := m, s, d;
      requests, receiveRspFrom, sendRspTo, atSlave := seq(m, _ => None), seq(m, _ => []), seq(s, _ => []),
            seq(s, _ => []);
      log, asked := [], seq(m, _ => []);
    }

    method DeqRequest(i: nat, req: R)
      requires Valid() && i < masters && requests[i].None?
      modifies this
      ensures Valid() && log == old(log) && asked == old(asked)[i := old(asked)[i] + [req]]
      ensures requests == old(requests)[i := Some(req)]
    {
      requests := requests[i := Some(req)];
      asked := asked[i := asked[i] + [req]];
    }

    /** A request goes to the slave chosen for it, and to no other. */
    method SendRequest(i: nat, j: nat) returns (fired: bool)
      requires Valid() && i < masters && j < slaves
      modifies this
      ensures Valid() && asked == old(asked)
      ensures fired <==>
                && old(requests)[i].Some? && Chosen(old(requests)[i].value) == j
                && |old(receiveRspFrom)[i]| < DEPTH && |old(sendRspTo)[j]| < DEPTH
      ensures fired ==> requests == old(requests)[i := None]
      ensures fired ==> atSlave == old(atSlave)[j := old(atSlave)[j] + [old(requests)[i].value]]
      ensures !fired ==> requests == old(requests) && atSlave == old(atSlave)
    {
      fired := requests[i].Some? && (slaves == 1 || dispatch(requests[i].value) == j) && |receiveRspFrom[i]| < DEPTH
            && |sendRspTo[j]| < DEPTH;
      if fired {
        hide MasterSide, SlaveSide, SentTo, CameFrom, OfMaster, AtSlave;
        ghost var t, before := Transfer(i, j, requests[i].value), log;
        forall k | 0 <= k < masters
          ensures if i == k then MasterSide(before + [t], k, receiveRspFrom[k] + [j], None, asked[k])
                else MasterSide(before + [t], k, receiveRspFrom[k], requests[k], asked[k])
        {
          MasterSends(before, t, k, receiveRspFrom[k], requests[k], asked[k]);
        }
        forall k | 0 <= k < slaves
          ensures if j == k then SlaveSide(before + [t], k, sendRspTo[k] + [i], atSlave[k] + [t.req])
                else SlaveSide(before + [t], k, sendRspTo[k], atSlave[k])
        {
          SlaveGets(before, t, k, sendRspTo[k], atSlave[k]);
        }
        receiveRspFrom := receiveRspFrom[i := receiveRspFrom[i] + [j]];
        sendRspTo := sendRspTo[j := sendRspTo[j] + [i]];
        atSlave := atSlave[j := atSlave[j] + [requests[i].value]];
        requests := requests[i := None];
        log := log + [t];
      }
    }

    /** `receiveGuard`, in each of its four forms, and the queues it reads not empty. */
    predicate ReceiveGuard(i: nat, j: nat)
      requires Sizes() && i < masters && j < slaves
      reads this
    {
      && receiveRspFrom[i] != [] && sendRspTo[j] != []
      && (if slaves == 1 && masters == 1 then true
          else if slaves == 1 then sendRspTo[j][0] == i
          else if masters == 1 then receiveRspFrom[i][0] == j
          else sendRspTo[j][0] == i && receiveRspFrom[i][0] == j)
    }

    /** In every configuration the guard pairs the oldest requests of both sides. */
    lemma {:induction false} GuardPairs(i: nat, j: nat)
      requires Valid() && i < masters && j < slaves && ReceiveGuard(i, j)
      ensures SentTo(log, i) == receiveRspFrom[i] && receiveRspFrom[i][0] == j && CameFrom(log, j) == sendRspTo[j]
      ensures sendRspTo[j][0] == i
    {
      assert MasterSide(log, i, receiveRspFrom[i], requests[i], asked[i]) && SlaveSide(log, j, sendRspTo[j],
          atSlave[j]);
      Heads(log, masters, slaves, i);
      Heads(log, masters, slaves, j);
    }

    /** While anything is outstanding, some slave can answer some master. */
    lemma {:induction false} NoDeadlock()
      requires Valid() && log != []
      ensures exists i, j :: 0 <= i < masters && 0 <= j < slaves && ReceiveGuard(i, j) && atSlave[j] != []
    {
      var t := log[0];
      assert t in log;
      assert SentTo(log, t.master)[0] == t.slave && CameFrom(log, t.slave)[0] == t.master
            && AtSlave(log, t.slave)[0] == t.req;
      assert MasterSide(log, t.master, receiveRspFrom[t.master], requests[t.master], asked[t.master]);
      assert SlaveSide(log, t.slave, sendRspTo[t.slave], atSlave[t.slave]);
      assert ReceiveGuard(t.master, t.slave);
    }

    /** A beat of the oldest response of slave `j` goes to master `i`: it answers the
        oldest unanswered request of that master, and that request was for slave `j`. */
    method ReceiveResponse(i: nat, j: nat, last: bool) returns (fired: bool, ghost req: R)
      requires Valid() && i < masters && j < slaves
      modifies this
      ensures Valid() && requests == old(requests) && fired == old(ReceiveGuard(i, j))
      ensures fired ==> old(atSlave)[j] != [] && req == old(atSlave)[j][0]
      ensures fired ==> old(asked)[i] != [] && req == old(asked)[i][0] && Chosen(req) == j
      ensures asked == if fired && last then old(asked)[i := old(asked)[i][1..]] else old(asked)
      ensures atSlave == if fired && last then old(atSlave)[j := old(atSlave)[j][1..]] else old(atSlave)
    {
      fired := ReceiveGuard(i, j);
      if fired {
        GuardPairs(i, j);
        hide MasterSide, SlaveSide, SentTo, CameFrom, OfMaster, AtSlave;
        ghost var before := log;
        Answered(before, i, j, receiveRspFrom[i], requests[i], asked[i], sendRspTo[j], atSlave[j]);
        req := atSlave[j][0];
        ChosenSlave(before, i);
        if last {
          forall k | 0 <= k < masters && k != i
            ensures MasterSide(Without(before, i), k, receiveRspFrom[k], requests[k], asked[k])
          {
            MasterWaits(before, i, k, receiveRspFrom[k], requests[k], asked[k]);
          }
          forall k | 0 <= k < slaves && k != j
            ensures SlaveSide(Without(before, i), k, sendRspTo[k], atSlave[k])
          {
            SlaveWaits(before, i, k, sendRspTo[k], atSlave[k]);
          }
          Members(before, i);
          receiveRspFrom := receiveRspFrom[i := receiveRspFrom[i][1..]];
          sendRspTo := sendRspTo[j := sendRspTo[j][1..]];
          atSlave := atSlave[j := atSlave[j][1..]];
          log := Without(log, i);
          asked := asked[i := asked[i][1..]];
        }
      } else {
        req := *;
      }
    }

    lemma {:induction false} ChosenSlave(log: seq<Transfer<R>>, i: nat)
      requires (forall t :: t in log ==> t.slave == Chosen(t.req)) && SentTo(log, i) != []
      ensures OfMaster(log, i) != [] && Chosen(OfMaster(log, i)[0]) == SentTo(log, i)[0]
      decreases |log|
    {
      assert log[0] in log;
      if log[0].master != i {
        ChosenSlave(log[1..], i);
      }
    }
  }
}
