/** Which values of a module are numbered, and in which order, told from its fields. */
module IrOrder {
  import opened StructuralHash
  import opened IrModule
  import opened Places

  /** Globals, aliases, ifuncs and kept functions are the sections; of a function, part 0 is
      itself and its arguments, and each other part a block and the instructions kept of it. */
  datatype Spot = Spot(section: nat, item: nat, part: nat, slot: nat)

  predicate Before(p: Spot, q: Spot) {
    p.section < q.section ||
    (p.section == q.section &&
     (p.item < q.item ||
      (p.item == q.item && (p.part < q.part || (p.part == q.part && p.slot < q.slot)))))
  }

  predicate BlockValueAt(b: Block, slot: nat, v: ValueId) {
    if slot == 0 then v == b.id
    else slot - 1 < |Kept(b.instructions)| && v == Kept(b.instructions)[slot - 1].id
  }

  predicate FunctionValueAt(f: Function, part: nat, slot: nat, v: ValueId) {
    if part > 0 then part - 1 < |f.blocks| && BlockValueAt(f.blocks[part - 1], slot, v)
    else if slot > 0 then slot - 1 < |f.arguments| && v == f.arguments[slot - 1]
    else v == f.id
  }

  /** The value at a spot of a module. */
  predicate ValueAt(m: Module, p: Spot, v: ValueId) {
    if p.section == 3 then
      p.item < |KeptFunctions(m.functions)| && FunctionValueAt(KeptFunctions(m.functions)[p.item], p.part, p.slot, v)
    else
      && p.part == 0 && p.slot == 0
      && (|| (p.section == 0 && p.item < |m.globals| && v == m.globals[p.item].id)
          || (p.section == 1 && p.item < |m.aliases| && v == m.aliases[p.item].id)
          || (p.section == 2 && p.item < |m.ifuncs| && v == m.ifuncs[p.item].id))
  }

  type Values = (Spot, ValueId) -> bool

  // ----- rows of values

  function OfItems(ids: seq<ValueId>, section: nat): Values {
    (p: Spot, v: ValueId) => p.section == section && p.part == 0 && p.slot == 0 && p.item < |ids| && v == ids[p.item]
  }

  function OfPart(ids: seq<ValueId>, item: nat, part: nat): Values {
    (p: Spot, v: ValueId) => p.section == 3 && p.item == item && p.part == part && p.slot < |ids| && v == ids[p.slot]
  }

  lemma ItemsPlaced(ids: seq<ValueId>, section: nat) returns (ps: seq<Spot>)
    ensures Placed(ids, ps, Before, OfItems(ids, section)) && forall p :: p in ps ==> p.section == section
  {
    ps := seq(|ids|, i requires 0 <= i < |ids| => Spot(section, i, 0, 0));
    forall p, v | OfItems(ids, section)(p, v) ensures p in ps { assert ps[p.item] == p; }
  }

  lemma PartPlaced(ids: seq<ValueId>, item: nat, part: nat) returns (ps: seq<Spot>)
    ensures Placed(ids, ps, Before, OfPart(ids, item, part))
    ensures forall p :: p in ps ==> p.section == 3 && p.item == item && p.part == part
  {
    ps := seq(|ids|, i requires 0 <= i < |ids| => Spot(3, item, part, i));
    forall p, v | OfPart(ids, item, part)(p, v) ensures p in ps { assert ps[p.slot] == p; }
  }

  // ----- functions

  function OfBlocks(blocks: seq<Block>, item: nat, from: nat): Values {
    (p: Spot, v: ValueId) =>
      p.section == 3 && p.item == item && from <= p.part < from + |blocks| && BlockValueAt(blocks[p.part - from], p.slot, v)
  }

  function OfFunction(f: Function, item: nat): Values {
    (p: Spot, v: ValueId) => p.section == 3 && p.item == item && FunctionValueAt(f, p.part, p.slot, v)
  }

  function OfFunctions(functions: seq<Function>, from: nat): Values {
    (p: Spot, v: ValueId) =>
      && p.section == 3 && from <= p.item < from + |functions|
      && FunctionValueAt(functions[p.item - from], p.part, p.slot, v)
  }

  lemma BlockRow(b: Block, slot: nat, v: ValueId)
    ensures var row := [b.id] + InstructionIds(b.instructions); BlockValueAt(b, slot, v) <==> slot < |row| && v == row[slot]
  {
    hide Kept;
  }

  lemma {:induction false} BlocksPlaced(blocks: seq<Block>, item: nat, from: nat) returns (ps: seq<Spot>)
    ensures Placed(BlockIds(blocks), ps, Before, OfBlocks(blocks, item, from))
    ensures forall p :: p in ps ==> p.section == 3 && p.item == item && from <= p.part < from + |blocks|
  {
    hide BlockValueAt, InstructionIds, Placed;
    var all := OfBlocks(blocks, item, from);
    if blocks == [] {
      ps := [];
      forall p, v ensures !all(p, v) { assert !(from <= p.part < from + |blocks|); }
      NothingPlaced(Before, all);
    } else {
      var row := [blocks[0].id] + InstructionIds(blocks[0].instructions);
      var first := PartPlaced(row, item, from);
      var rest := BlocksPlaced(blocks[1..], item, from + 1);
      forall p, v ensures all(p, v) <==> OfPart(row, item, from)(p, v) || OfBlocks(blocks[1..], item, from + 1)(p, v) {
        BlockRow(blocks[0], p.slot, v);
        if from + 1 <= p.part < from + |blocks| { assert blocks[1..][p.part - (from + 1)] == blocks[p.part - from]; }
      }
      PlacedJoin(row, first, OfPart(row, item, from), BlockIds(blocks[1..]), rest, OfBlocks(blocks[1..], item, from + 1), Before, all);
      ps := first + rest;
    }
  }

  lemma FunctionPlaced(f: Function, item: nat) returns (ps: seq<Spot>)
    ensures Placed(FunctionIds(f), ps, Before, OfFunction(f, item))
    ensures forall p :: p in ps ==> p.section == 3 && p.item == item
  {
    hide BlockValueAt, BlockIds, Placed;
    var row := [f.id] + f.arguments;
    var head := PartPlaced(row, item, 0);
    var body := BlocksPlaced(f.blocks, item, 1);
    forall p, v ensures OfFunction(f, item)(p, v) <==> OfPart(row, item, 0)(p, v) || OfBlocks(f.blocks, item, 1)(p, v) {
      if p.slot > 0 && p.slot < |row| { assert row[p.slot] == f.arguments[p.slot - 1]; }
    }
    PlacedJoin(row, head, OfPart(row, item, 0), BlockIds(f.blocks), body, OfBlocks(f.blocks, item, 1), Before, OfFunction(f, item));
    ps := head + body;
  }

  lemma {:induction false} FunctionsPlaced(functions: seq<Function>, from: nat) returns (ps: seq<Spot>)
    ensures Placed(AllFunctionIds(functions), ps, Before, OfFunctions(functions, from))
    ensures forall p :: p in ps ==> p.section == 3 && from <= p.item
  {
    hide FunctionValueAt, FunctionIds, Placed;
    var all := OfFunctions(functions, from);
    if functions == [] {
      ps := [];
      forall p, v ensures !all(p, v) { assert !(from <= p.item < from + |functions|); }
      NothingPlaced(Before, all);
    } else {
      var first := FunctionPlaced(functions[0], from);
      var rest := FunctionsPlaced(functions[1..], from + 1);
      forall p, v ensures all(p, v) <==> OfFunction(functions[0], from)(p, v) || OfFunctions(functions[1..], from + 1)(p, v) {
        if from + 1 <= p.item < from + |functions| { assert functions[1..][p.item - (from + 1)] == functions[p.item - from]; }
      }
      PlacedJoin(FunctionIds(functions[0]), first, OfFunction(functions[0], from),
                 AllFunctionIds(functions[1..]), rest, OfFunctions(functions[1..], from + 1), Before, all);
      ps := first + rest;
    }
  }

  // ----- modules

  function OfSections(m: Module, low: nat, high: nat): Values {
    (p: Spot, v: ValueId) => low <= p.section < high && ValueAt(m, p, v)
  }

  /** The values of a module are numbered in the order of their spots: those at all its spots,
      and no others. */
  lemma OrderIsPlaced(m: Module) returns (ps: seq<Spot>)
    ensures |ps| == |Order(m)| && Rising(ps, Before)
    ensures forall n :: 0 <= n < |ps| ==> ValueAt(m, ps[n], Order(m)[n])
    ensures forall p, v :: ValueAt(m, p, v) ==> p in ps
    ensures forall v :: v in Order(m) <==> exists p :: ValueAt(m, p, v)
  {
    hide KeptFunctions, AllFunctionIds, FunctionValueAt;
    var globals, aliases := Map(m.globals, (g: GlobalVariable) => g.id), Map(m.aliases, (a: Alias) => a.id);
    var ifuncs, functions := Map(m.ifuncs, (f: IFunc) => f.id), KeptFunctions(m.functions);
    var p0 := ItemsPlaced(globals, 0);
    var p1 := ItemsPlaced(aliases, 1);
    var p2 := ItemsPlaced(ifuncs, 2);
    var p3 := FunctionsPlaced(functions, 0);
    hide Placed, Rising;
    PlacedJoin(globals, p0, OfItems(globals, 0), aliases, p1, OfItems(aliases, 1), Before, OfSections(m, 0, 2));
    PlacedJoin(globals + aliases, p0 + p1, OfSections(m, 0, 2), ifuncs, p2, OfItems(ifuncs, 2), Before, OfSections(m, 0, 3));
    PlacedJoin(globals + aliases + ifuncs, p0 + p1 + p2, OfSections(m, 0, 3), AllFunctionIds(functions), p3,
               OfFunctions(functions, 0), Before, OfSections(m, 0, 4));
    ps := p0 + p1 + p2 + p3;
    assert Order(m) == globals + aliases + ifuncs + AllFunctionIds(functions);
    SpotsOfOrder(m, Order(m), ps);
  }

  lemma SpotsOfOrder(m: Module, order: seq<ValueId>, ps: seq<Spot>)
    requires Placed(order, ps, Before, OfSections(m, 0, 4))
    ensures |ps| == |order| && Rising(ps, Before)
    ensures forall n :: 0 <= n < |ps| ==> ValueAt(m, ps[n], order[n])
    ensures forall p, v :: ValueAt(m, p, v) ==> p in ps
    ensures forall v :: v in order <==> exists p :: ValueAt(m, p, v)
  {
    var all := OfSections(m, 0, 4);
    forall n | 0 <= n < |ps| ensures ValueAt(m, ps[n], order[n]) { assert all(ps[n], order[n]); }
    forall p, v | ValueAt(m, p, v) ensures p in ps && v in order {
      assert all(p, v);
      var n :| 0 <= n < |ps| && ps[n] == p;
      OneValueAt(m, p, v, order[n]);
    }
  }

  lemma OneValueAt(m: Module, p: Spot, v: ValueId, w: ValueId)
    requires ValueAt(m, p, v) && ValueAt(m, p, w)
    ensures v == w
  {
    hide Kept, KeptFunctions;
  }

  /** Values that occur once are numbered from 1 in order; all others get no number. */
  lemma {:induction false} NumbersAre(order: seq<ValueId>, v: ValueId)
    ensures v in Numbers(order) <==> v in order
    ensures forall i :: 0 <= i < |order| && order[i] == v && v !in order[i + 1..] ==> IdOf(Numbers(order), v) == Count(i + 1)
    decreases |order|
  {
    hide Count;
    if order != [] {
      var n := |order| - 1;
      var init := order[..n];
      NumbersAre(init, v);
      assert order == init + [order[n]];
      forall i | 0 <= i < |order| && order[i] == v && v !in order[i + 1..] ensures IdOf(Numbers(order), v) == Count(i + 1) {
        if i < n {
          assert order[i + 1..] == init[i + 1..] + [order[n]];
          assert init[i] == v && v !in init[i + 1..] && order[n] != v;
        }
      }
    }
  }
}
