/** The car service over the car store interface. Create and update run the
    car request rules and stop at the first failure without calling the
    store; the two reads and delete go straight to the store with their
    arguments unchanged. Whatever the store returns is passed on, except
    that on an error the car is replaced by the zero Car and a list by an
    empty (nil) one. */
module ServiceCar {
  import opened Base
  import opened Models

  /** A call as the car store receives it. */
  datatype CarCall =
    | GetByIdCall(id: string)
    | GetByBrandCall(brand: string, isEngine: bool)
    | CreateCall(req: CarRequest)
    | UpdateCall(id: string, req: CarRequest)
    | DeleteCall(id: string)

  /** The car store interface. Its implementation is not part of this model,
      so each operation is an arbitrary function of the store's state `S`
      (which holds the car table and whatever clock and id source the store
      uses); the reads leave the state alone, the writes yield a new one. */
  datatype CarStoreOps<!S> = CarStoreOps(
    getCarById: (S, string) -> Reply<Car>,
    getCarByBrand: (S, string, bool) -> Reply<seq<Car>>,
    createCar: (S, CarRequest) -> (Reply<Car>, S),
    updateCar: (S, string, CarRequest) -> (Reply<Car>, S),
    deleteCar: (S, string) -> (Reply<Car>, S))

  /** Some implementation of the interface, with the state it works on. */
  class CarStore<S> {
    const ops: CarStoreOps<S>
    var state: S
    /** Every call the store has received, oldest first. */
    ghost var calls: seq<CarCall>

    constructor (ops: CarStoreOps<S>, state: S)
      ensures this.ops == ops && this.state == state && calls == []
    {
      this.ops := ops;
      this.state := state;
      calls := [];
    }

    method GetCarById(id: string) returns (r: Reply<Car>)
      modifies this`calls
      ensures calls == old(calls) + [GetByIdCall(id)]
      ensures r == ops.getCarById(state, id)
    {
      calls := calls + [GetByIdCall(id)];
      r := ops.getCarById(state, id);
    }

    method GetCarByBrand(brand: string, isEngine: bool) returns (r: Reply<seq<Car>>)
      modifies this`calls
      ensures calls == old(calls) + [GetByBrandCall(brand, isEngine)]
      ensures r == ops.getCarByBrand(state, brand, isEngine)
    {
      calls := calls + [GetByBrandCall(brand, isEngine)];
      r := ops.getCarByBrand(state, brand, isEngine);
    }

    method CreateCar(req: CarRequest) returns (r: Reply<Car>)
      modifies this`calls, this`state
      ensures calls == old(calls) + [CreateCall(req)]
      ensures (r, state) == ops.createCar(old(state), req)
    {
      calls := calls + [CreateCall(req)];
      var (reply, after) := ops.createCar(state, req);
      r, state := reply, after;
    }

    method UpdateCar(id: string, req: CarRequest) returns (r: Reply<Car>)
      modifies this`calls, this`state
      ensures calls == old(calls) + [UpdateCall(id, req)]
      ensures (r, state) == ops.updateCar(old(state), id, req)
    {
      calls := calls + [UpdateCall(id, req)];
      var (reply, after) := ops.updateCar(state, id, req);
      r, state := reply, after;
    }

    method DeleteCar(id: string) returns (r: Reply<Car>)
      modifies this`calls, this`state
      ensures calls == old(calls) + [DeleteCall(id)]
      ensures (r, state) == ops.deleteCar(old(state), id)
    {
      calls := calls + [DeleteCall(id)];
      var (reply, after) := ops.deleteCar(state, id);
      r, state := reply, after;
    }
  }

  class CarService<S> {
    const store: CarStore<S>

    constructor (store: CarStore<S>)
      ensures this.store == store
    {
      this.store := store;
    }

    method GetCarById(id: string) returns (r: Reply<Car>)
      modifies store`calls
      ensures store.calls == old(store.calls) + [GetByIdCall(id)]
      ensures r == Scrub(store.ops.getCarById(store.state, id), ZeroCar)
    {
      var car := store.GetCarById(id);
      if car.Failed() {
        return Reply(ZeroCar, car.err);
      }
      r := car;
    }

    method GetCarByBrand(brand: string, isEngine: bool) returns (r: Reply<seq<Car>>)
      modifies store`calls
      ensures store.calls == old(store.calls) + [GetByBrandCall(brand, isEngine)]
      ensures r == Scrub(store.ops.getCarByBrand(store.state, brand, isEngine), [])
    {
      var cars := store.GetCarByBrand(brand, isEngine);
      if cars.Failed() {
        return Reply([], cars.err);
      }
      r := cars;
    }

    method DeleteCar(id: string) returns (r: Reply<Car>)
      modifies store`calls, store`state
      ensures store.calls == old(store.calls) + [DeleteCall(id)]
      ensures var (reply, after) := store.ops.deleteCar(old(store.state), id);
              store.state == after && r == Scrub(reply, ZeroCar)
    {
      var car := store.DeleteCar(id);
      if car.Failed() {
        return Reply(ZeroCar, car.err);
      }
      r := car;
    }

    /** `currentYear` is the year the clock reads while the request is checked. */
    method UpdateCar(id: string, req: CarRequest, currentYear: int) returns (r: Reply<Car>)
      modifies store`calls, store`state
      ensures CarValidateRequest(req, currentYear).Some? ==>
        && r == Reply(ZeroCar, CarValidateRequest(req, currentYear))
        && store.state == old(store.state) && store.calls == old(store.calls)
      ensures CarValidateRequest(req, currentYear).None? ==>
        var (reply, after) := store.ops.updateCar(old(store.state), id, req);
        && store.calls == old(store.calls) + [UpdateCall(id, req)]
        && store.state == after && r == Scrub(reply, ZeroCar)
    {
      var invalid := CarValidateRequest(req, currentYear);
      if invalid.Some? {
        return Reply(ZeroCar, invalid);
      }
      var car := store.UpdateCar(id, req);
      if car.Failed() {
        return Reply(ZeroCar, car.err);
      }
      r := car;
    }

    method CreateCar(req: CarRequest, currentYear: int) returns (r: Reply<Car>)
      modifies store`calls, store`state
      ensures CarValidateRequest(req, currentYear).Some? ==>
        && r == Reply(ZeroCar, CarValidateRequest(req, currentYear))
        && store.state == old(store.state) && store.calls == old(store.calls)
      ensures CarValidateRequest(req, currentYear).None? ==>
        var (reply, after) := store.ops.createCar(old(store.state), req);
        && store.calls == old(store.calls) + [CreateCall(req)]
        && store.state == after && r == Scrub(reply, ZeroCar)
    {
      var invalid := CarValidateRequest(req, currentYear);
      if invalid.Some? {
        return Reply(ZeroCar, invalid);
      }
      var car := store.CreateCar(req);
      if car.Failed() {
        return Reply(ZeroCar, car.err);
      }
      r := car;
    }
  }
}
