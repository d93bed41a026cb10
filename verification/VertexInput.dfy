/** The device's vertex-input state, method by method against VertexBinding
    (libobs-d3d11/d3d11-subsystem.cpp:1804-1841, 1922-1951, 2902-2908, libobs-d3d11/d3d11-shader.cpp:387-393). */
module VertexInput {
  import opened InputLayout
  import opened VertexBuffers
  import opened VertexBinding
  import opened Options

  class GsDevice {
    var buffers: map<Address, VertexBuffer>
    var shaders: map<Address, seq<Element>>
    var curVertexBuffer: Address
    var curVertexShader: Address
    var lastVertexBuffer: Address
    var lastVertexShader: Address
    var slots: Slots

    ghost function Value(): Device
      reads this
    {
      Device(buffers, shaders, curVertexBuffer, curVertexShader, lastVertexBuffer, lastVertexShader, slots)
    }

    constructor ()
      ensures Value() == Device(map[], map[], 0, 0, 0, 0, Nones(SLOT_COUNT)) && Sound(Value())
    {
      buffers, shaders, slots := map[], map[], Nones(SLOT_COUNT);
      curVertexBuffer, curVertexShader, lastVertexBuffer, lastVertexShader := 0, 0, 0, 0;
    }

    /** LoadVertexBufferData, called by device_draw once it knows there is a vertex shader. */
    method LoadVertexBufferData()
      requires Valid(Value()) && curVertexShader != 0 && Plays(Value(), Draw)
      modifies this`slots, this`lastVertexBuffer, this`lastVertexShader
      ensures Value() == Next(old(Value()), Draw)
    {
      if curVertexBuffer == lastVertexBuffer && curVertexShader == lastVertexShader {
        return;
      }
      var list, strides := new nat[SLOT_COUNT], new nat[SLOT_COUNT];
      var x := ExpectedOf(shaders[curVertexShader]);
      var bound: Slots;
      if curVertexBuffer != 0 {
        var numBuffers := MakeBufferList(buffers[curVertexBuffer], x, list, strides);
        bound := seq(numBuffers, i requires 0 <= i < numBuffers && numBuffers <= SLOT_COUNT reads list, strides =>
                       Some(Bound(list[i], strides[i])));
        assert bound == Somes(BufferList(buffers[curVertexBuffer], x));
      } else {
        bound := Nones(NumBuffersExpected(x));
      }
      IASetVertexBuffers(bound);
      lastVertexBuffer := curVertexBuffer;
      lastVertexShader := curVertexShader;
    }

    /** The context's call, which leaves the slots after the last one given alone. */
    method IASetVertexBuffers(bound: Slots)
      requires |bound| <= |slots|
      modifies this`slots
      ensures slots == SetSlots(old(slots), bound)
    {
      slots := bound + slots[|bound|..];
    }

    /** device_load_vertexbuffer. */
    method LoadVertexBuffer(vertbuffer: Address)
      modifies this`curVertexBuffer
      ensures Value() == Next(old(Value()), LoadBuffer(vertbuffer))
    {
      if curVertexBuffer == vertbuffer {
        return;
      }
      curVertexBuffer := vertbuffer;
    }

    /** gs_vertexbuffer_destroy. */
    method DestroyVertexBuffer(vertbuffer: Address)
      modifies this`buffers, this`lastVertexBuffer
      ensures Value() == Next(old(Value()), DestroyBuffer(vertbuffer))
    {
      if lastVertexBuffer == vertbuffer {
        lastVertexBuffer := 0;
      }
      buffers := buffers - {vertbuffer};
    }

    /** gs_shader_destroy, of a vertex shader. */
    method DestroyVertexShader(shader: Address)
      modifies this`shaders, this`lastVertexShader
      ensures Value() == Next(old(Value()), DestroyShader(shader))
    {
      if lastVertexShader == shader {
        lastVertexShader := 0;
      }
      shaders := shaders - {shader};
    }
  }
}
